/**
 * `make_links_counter_file` (cdf/features/links/tasks.py): routes each
 * counter entry of the links transducer to the counter file of its link type,
 * opening that file on the type's first entry, writes the entry as one
 * tab-separated line, and answers the part id when some file was created.
 */
module CounterFiles {
  import opened Wrappers
  import opened Text

  /** A transducer entry: field 0 the url id, field 1 the link type, then the counters. */
  datatype Entry = Entry(id: int, linkType: string, counts: seq<int>)

  /** The keys of the `filenames` dictionary. */
  const LinkTypes: set<string> := {"links", "canonical", "redirect"}

  /** The counter file name of a link type: `url_`, the direction, the type, `_counters.txt.`, the part id and `.gz`; None for an unknown type. */
  function FileName(direction: string, linkType: string, partId: int): Option<string>
  {
    var suffix := "_counters.txt." + IntToString(partId) + ".gz";
    if linkType == "links" then Some("url_" + direction + "_links" + suffix)
    else if linkType == "canonical" then Some("url_" + direction + "_canonical" + suffix)
    else if linkType == "redirect" then Some("url_" + direction + "_redirect" + suffix)
    else None
  }

  function Strs(xs: seq<int>): (r: seq<string>)
    ensures |r| == |xs| && forall i :: 0 <= i < |xs| ==> r[i] == IntToString(xs[i])
  {
    if xs == [] then [] else [IntToString(xs[0])] + Strs(xs[1..])
  }

  /** The line of an entry: its id, a tab, its counts joined by tabs, then a newline. */
  function Line(e: Entry): string
  {
    IntToString(e.id) + "\t" + Join(Strs(e.counts), "\t") + "\n"
  }

  /** An open counter file: the name it was opened under and the lines written to it. */
  datatype CounterFile = CounterFile(name: string, lines: seq<string>)

  /** The `file_created` dictionary after some entries, or the link type on which `filenames[link_type]` raised. */
  datatype Progress = Open(files: map<string, CounterFile>) | KeyError(linkType: string)

  /** One entry of the loop of lines 91-96: open its type's file unless already open, then write its line. */
  function WriteEntry(files: map<string, CounterFile>, e: Entry, direction: string, partId: int): Progress
  {
    if e.linkType !in files && FileName(direction, e.linkType, partId).None? then KeyError(e.linkType)
    else
      var f := if e.linkType in files then files[e.linkType]
               else CounterFile(FileName(direction, e.linkType, partId).value, []);
      Open(files[e.linkType := f.(lines := f.lines + [Line(e)])])
  }

  /** The loop of lines 91-96 over the entries, so far. */
  function Write(es: seq<Entry>, direction: string, partId: int): Progress
  {
    if es == [] then Open(map[])
    else
      match Write(es[..|es| - 1], direction, partId)
      case KeyError(t) => KeyError(t)
      case Open(files) => WriteEntry(files, es[|es| - 1], direction, partId)
  }

  /** What `make_links_counter_file` returns: the part id when some file was created, None otherwise; or the exception. */
  datatype CounterOutcome = Pushed(files: map<string, CounterFile>, result: Option<int>) | UnknownLinkType(linkType: string)

  function CountersOf(es: seq<Entry>, direction: string, partId: int): CounterOutcome
  {
    match Write(es, direction, partId)
    case KeyError(t) => UnknownLinkType(t)
    case Open(files) => Pushed(files, if |files| > 0 then Some(partId) else None)
  }

  /** `make_links_counter_file` over the transducer's entries; writing and pushing the files are left to the caller. */
  method MakeLinksCounterFile(entries: seq<Entry>, direction: string, partId: int) returns (r: CounterOutcome)
    ensures r == CountersOf(entries, direction, partId)
  {
    var fileCreated: map<string, CounterFile> := map[];
    for i := 0 to |entries|
      invariant Write(entries[..i], direction, partId) == Open(fileCreated)
    {
      assert entries[..i + 1][..i] == entries[..i];
      var step := WriteCounterLine(fileCreated, entries[i], direction, partId);
      if step.KeyError? {
        WriteStopped(entries, i + 1, direction, partId);
        assert entries[..|entries|] == entries;
        return UnknownLinkType(step.linkType);
      }
      fileCreated := step.files;
    }
    assert entries[..|entries|] == entries;
    r := Pushed(fileCreated, if |fileCreated| > 0 then Some(partId) else None);
  }

  /** The body of the loop for one entry: the file of its link type is opened lazily, then the line written. */
  method WriteCounterLine(fileCreated: map<string, CounterFile>, entry: Entry, direction: string, partId: int) returns (r: Progress)
    ensures r == WriteEntry(fileCreated, entry, direction, partId)
  {
    var files := fileCreated;
    var linkType := entry.linkType;
    if linkType !in files {
      var name := FileName(direction, linkType, partId);
      if name.None? {
        return KeyError(linkType);
      }
      files := files[linkType := CounterFile(name.value, [])];
    }
    var f := files[linkType];
    r := Open(files[linkType := f.(lines := f.lines + [Line(entry)])]);
  }

  /** Once a prefix of the entries has raised, the whole run raises the same way. */
  lemma {:induction false} WriteStopped(es: seq<Entry>, n: nat, direction: string, partId: int)
    requires n <= |es| && Write(es[..n], direction, partId).KeyError?
    ensures Write(es, direction, partId) == Write(es[..n], direction, partId)
    decreases |es| - n
  {
    if n < |es| {
      assert es[..n + 1][..n] == es[..n];
      WriteStopped(es, n + 1, direction, partId);
    } else {
      assert es[..n] == es;
    }
  }

  // ---------------------------------------------------------------------------
  // Properties

  /** The lines of the entries of one link type, in entry order. */
  function Routed(es: seq<Entry>, t: string): seq<string>
  {
    if es == [] then []
    else (if es[0].linkType == t then [Line(es[0])] else []) + Routed(es[1..], t)
  }

  lemma {:induction false} RoutedAppend(es: seq<Entry>, e: Entry, t: string)
    ensures Routed(es + [e], t) == Routed(es, t) + if e.linkType == t then [Line(e)] else []
  {
    if es != [] {
      assert (es + [e])[1..] == es[1..] + [e];
      RoutedAppend(es[1..], e, t);
    }
  }

  /** The link types of the entries. */
  function TypesOf(es: seq<Entry>): set<string>
  {
    set i | 0 <= i < |es| :: es[i].linkType
  }

  predicate AllKnown(es: seq<Entry>)
  {
    forall i :: 0 <= i < |es| ==> es[i].linkType in LinkTypes
  }

  /** `filenames[link_type]` raises exactly for the link types outside the three known ones. */
  lemma FileNameKnown(direction: string, t: string, partId: int)
    ensures FileName(direction, t, partId).Some? <==> t in LinkTypes
  {
  }

  /**
   * One entry of a known type: its file is opened under its file name if it
   * was not yet, its line is appended, and every other file stays as it was.
   */
  lemma WriteEntryEffect(files: map<string, CounterFile>, e: Entry, direction: string, partId: int)
    requires e.linkType in LinkTypes
    ensures var r := WriteEntry(files, e, direction, partId);
            && r.Open?
            && r.files.Keys == files.Keys + {e.linkType}
            && r.files[e.linkType].name == (if e.linkType in files then files[e.linkType].name else FileName(direction, e.linkType, partId).value)
            && r.files[e.linkType].lines == (if e.linkType in files then files[e.linkType].lines else []) + [Line(e)]
            && forall t :: t in files && t != e.linkType ==> r.files[t] == files[t]
  {
    FileNameKnown(direction, e.linkType, partId);
  }

  lemma TypesOfAppend(es: seq<Entry>, e: Entry)
    ensures TypesOf(es + [e]) == TypesOf(es) + {e.linkType}
  {
    var s := es + [e];
    forall x | x in TypesOf(s) ensures x in TypesOf(es) + {e.linkType} {
      var i :| 0 <= i < |s| && s[i].linkType == x;
      if i < |es| {
        assert es[i] == s[i];
      }
    }
    forall x | x in TypesOf(es) ensures x in TypesOf(s) {
      var i :| 0 <= i < |es| && es[i].linkType == x;
      assert s[i] == es[i];
    }
    assert s[|es|] == e;
  }

  /**
   * With every link type known, one file per link type that occurs, opened
   * under that type's file name, holding exactly the lines of that type's
   * entries, in entry order.
   */
  lemma {:induction false} WriteRoutes(es: seq<Entry>, direction: string, partId: int)
    requires AllKnown(es)
    ensures Write(es, direction, partId).Open?
    ensures var files := Write(es, direction, partId).files;
            && files.Keys == TypesOf(es)
            && forall t :: t in files ==>
                 FileName(direction, t, partId) == Some(files[t].name) && files[t].lines == Routed(es, t)
  {
    if es != [] {
      var n := |es| - 1;
      AllKnownSplit(es);
      WriteRoutes(es[..n], direction, partId);
      RoutesStep(es, Write(es[..n], direction, partId).files, direction, partId);
    }
  }

  /** The routing invariant survives one more entry of a known type. */
  lemma RoutesStep(es: seq<Entry>, files: map<string, CounterFile>, direction: string, partId: int)
    requires es != [] && es[|es| - 1].linkType in LinkTypes
    requires files.Keys == TypesOf(es[..|es| - 1])
    requires forall t :: t in files ==> FileName(direction, t, partId) == Some(files[t].name) && files[t].lines == Routed(es[..|es| - 1], t)
    ensures var r := WriteEntry(files, es[|es| - 1], direction, partId);
            && r.Open?
            && r.files.Keys == TypesOf(es)
            && forall t :: t in r.files ==>
                 FileName(direction, t, partId) == Some(r.files[t].name) && r.files[t].lines == Routed(es, t)
  {
    var init, e := es[..|es| - 1], es[|es| - 1];
    LastSplit(es);
    WriteEntryEffect(files, e, direction, partId);
    TypesOfAppend(init, e);
    RoutesStepFiles(init, e, files, direction, partId);
  }

  lemma LastSplit<T>(s: seq<T>)
    requires s != []
    ensures s == s[..|s| - 1] + [s[|s| - 1]]
  {
  }

  lemma RoutesStepFiles(init: seq<Entry>, e: Entry, files: map<string, CounterFile>, direction: string, partId: int)
    requires e.linkType in LinkTypes
    requires files.Keys == TypesOf(init)
    requires forall t :: t in files ==> FileName(direction, t, partId) == Some(files[t].name) && files[t].lines == Routed(init, t)
    ensures var r := WriteEntry(files, e, direction, partId).files;
            forall t :: t in r ==> FileName(direction, t, partId) == Some(r[t].name) && r[t].lines == Routed(init + [e], t)
  {
    var r := WriteEntry(files, e, direction, partId).files;
    forall t | t in r
      ensures FileName(direction, t, partId) == Some(r[t].name) && r[t].lines == Routed(init + [e], t)
    {
      RouteOne(init, e, files, direction, partId, t);
    }
  }

  /** The same, for the file of one link type. */
  lemma RouteOne(init: seq<Entry>, e: Entry, files: map<string, CounterFile>, direction: string, partId: int, t: string)
    requires e.linkType in LinkTypes
    requires t in files ==> FileName(direction, t, partId) == Some(files[t].name) && files[t].lines == Routed(init, t)
    requires t !in files ==> t !in TypesOf(init)
    ensures var r := WriteEntry(files, e, direction, partId).files;
            t in r ==> FileName(direction, t, partId) == Some(r[t].name) && r[t].lines == Routed(init + [e], t)
  {
    WriteEntryEffect(files, e, direction, partId);
    RoutedAppend(init, e, t);
    if t !in files {
      RoutedAbsent(init, t);
    }
  }

  /** A link type that no entry has routes no line. */
  lemma {:induction false} RoutedAbsent(es: seq<Entry>, t: string)
    requires t !in TypesOf(es)
    ensures Routed(es, t) == []
  {
    if es != [] {
      assert es[0].linkType in TypesOf(es);
      assert TypesOf(es[1..]) <= TypesOf(es) by {
        forall x | x in TypesOf(es[1..]) ensures x in TypesOf(es) {
          var i :| 0 <= i < |es[1..]| && es[1..][i].linkType == x;
          assert es[i + 1] == es[1..][i];
        }
      }
      RoutedAbsent(es[1..], t);
    }
  }

  /** The run raises exactly when some entry has an unknown link type, and then on the first such type. */
  lemma {:induction false} WriteRaises(es: seq<Entry>, direction: string, partId: int)
    ensures Write(es, direction, partId).KeyError? <==> !AllKnown(es)
    ensures Write(es, direction, partId).KeyError? ==>
              exists i :: 0 <= i < |es| && es[i].linkType == Write(es, direction, partId).linkType
                          && es[i].linkType !in LinkTypes && AllKnown(es[..i])
  {
    if es != [] {
      var n := |es| - 1;
      var init, e := es[..n], es[n];
      WriteRaises(init, direction, partId);
      AllKnownSplit(es);
      var w := Write(init, direction, partId);
      if w.Open? {
        WriteKeysKnown(init, direction, partId);
        FileNameKnown(direction, e.linkType, partId);
        assert Write(es, direction, partId) == WriteEntry(w.files, e, direction, partId);
        if e.linkType !in LinkTypes {
          assert Write(es, direction, partId) == KeyError(e.linkType);
        }
      } else {
        var i :| 0 <= i < |init| && init[i].linkType == w.linkType && init[i].linkType !in LinkTypes && AllKnown(init[..i]);
        assert init[..i] == es[..i] && init[i] == es[i];
      }
    }
  }

  lemma AllKnownSplit(es: seq<Entry>)
    requires es != []
    ensures AllKnown(es) <==> AllKnown(es[..|es| - 1]) && es[|es| - 1].linkType in LinkTypes
  {
    assert forall i :: 0 <= i < |es| - 1 ==> es[..|es| - 1][i] == es[i];
  }

  /** Files are only ever opened for known link types. */
  lemma {:induction false} WriteKeysKnown(es: seq<Entry>, direction: string, partId: int)
    requires Write(es, direction, partId).Open?
    ensures Write(es, direction, partId).files.Keys <= LinkTypes
  {
    if es != [] {
      WriteKeysKnown(es[..|es| - 1], direction, partId);
      FileNameKnown(direction, es[|es| - 1].linkType, partId);
    }
  }

  /**
   * `make_links_counter_file` answers the part id exactly when some counter
   * file was created, which is exactly when there was at least one entry.
   */
  lemma PartIdIffCreated(es: seq<Entry>, direction: string, partId: int)
    requires CountersOf(es, direction, partId).Pushed?
    ensures var r := CountersOf(es, direction, partId);
            && (r.result == Some(partId) <==> r.files != map[])
            && (r.result.None? <==> es == [])
  {
    WriteRaises(es, direction, partId);
    WriteRoutes(es, direction, partId);
    var files := Write(es, direction, partId).files;
    if es != [] {
      assert es[0].linkType in TypesOf(es);
      assert es[0].linkType in files;
    }
    if files == map[] {
      assert |files| == 0;
    } else {
      var t :| t in files;
      assert |files| > 0;
    }
  }

  /** The three counter files of a part have three different names. */
  lemma FileNamesDistinct(direction: string, s: string, t: string, partId: int)
    requires s in LinkTypes && t in LinkTypes && s != t
    ensures FileName(direction, s, partId).Some? && FileName(direction, t, partId).Some?
    ensures FileName(direction, s, partId).value != FileName(direction, t, partId).value
  {
    var i := |"url_" + direction + "_"|;
    var a, b := FileName(direction, s, partId).value, FileName(direction, t, partId).value;
    assert a[i] == s[0] && b[i] == t[0];
  }

  /**
   * A counter line ends with a newline, and splitting the rest at tabs gives
   * back the id and the counters, each parsing to its value.
   */
  lemma LineFields(e: Entry)
    requires e.counts != []
    ensures var l := Line(e);
            && l[|l| - 1] == '\n'
            && Split(l[..|l| - 1], '\t') == [IntToString(e.id)] + Strs(e.counts)
            && ParseInt(Split(l[..|l| - 1], '\t')[0]) == Some(e.id)
            && forall i :: 0 <= i < |e.counts| ==> ParseInt(Split(l[..|l| - 1], '\t')[i + 1]) == Some(e.counts[i])
  {
    var l := Line(e);
    var body := IntToString(e.id) + "\t" + Join(Strs(e.counts), "\t");
    assert l == body + "\n";
    assert l[..|l| - 1] == body;
    IntToStringNoTab(e.id);
    assert body == IntToString(e.id) + ['\t'] + Join(Strs(e.counts), ['\t']);
    SplitAfterField(IntToString(e.id), '\t', Join(Strs(e.counts), ['\t']));
    forall i | 0 <= i < |Strs(e.counts)| ensures '\t' !in Strs(e.counts)[i] {
      IntToStringNoTab(e.counts[i]);
    }
    SplitJoin(Strs(e.counts), '\t');
    IntToStringParses(e.id);
    forall i | 0 <= i < |e.counts| ensures ParseInt(Strs(e.counts)[i]) == Some(e.counts[i]) {
      IntToStringParses(e.counts[i]);
    }
  }
}
