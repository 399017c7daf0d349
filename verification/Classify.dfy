/** The classifier as a whole (internal/classify/classify.go): mark outages, build
    cells, apply the rules, sort. And the life of a stored report: remerged and
    classified again, it says what it said. */
module Classify {
  import opened Evidence
  import opened Sorting
  import opened Cells
  import opened Rules
  import opened Mechanisms
  import opened SynAck
  import opened Dest
  import opened StrengthOfEvidence
  import opened RuleContext
  import Outages
  import opened LocalOutages
  import opened Remerge

  datatype Report = Report(cells: seq<Cell>, verdicts: seq<Verdict>, localNotes: seq<LocalNote>,
      notes: seq<Outages.Outage>)

  const UNREACHABLE: Verdict := Verdict("probe_unreachable", "control plane", High, [])

  /** What the classifier says about a scan. */
  ghost function Classified(attempts: seq<Attempt>, reachable: bool, standalone: bool,
      hostOf: string -> string): Report {
    var f := Flag(attempts);
    var x := Context(f.marked, hostOf);
    Report(x.cells, if !reachable && !standalone then [UNREACHABLE] else Verdicts(x), f.localNotes, f.notes)
  }

  /** The cells of a scan are spelled differently if their keys are. */
  lemma AggregatedSpelled(attempts: seq<Attempt>)
    requires WellKeyed(set k | k in Keys(attempts))
    ensures WellSpelled(Aggregated(attempts))
  {
    hide KeyText;
    var ks := Keys(attempts);
    forall k | k in ks ensures CellOf(attempts, k).Some? { KeysHaveCells(attempts, k); }
    var cs := CellList(attempts, ks);
    KeysDistinct(attempts);
    forall i | 0 <= i < |cs| ensures cs[i].key == ks[i] {
      assert ks[i] in ks;
      KeysHaveCells(attempts, ks[i]);
    }
    SortContents(cs, KeyLe);
    var out := StableSort(cs, KeyLe);
    forall i, j | 0 <= i < j < |out| ensures KeyText(out[i].key) != KeyText(out[j].key) {
      FromList(cs, out, i);
      FromList(cs, out, j);
      KeysApart(cs, out, i, j);
      assert out[i].key in ks && out[j].key in ks;
    }
  }

  lemma FromList(cs: seq<Cell>, out: seq<Cell>, i: nat)
    requires multiset(cs) == multiset(out) && i < |out|
    ensures out[i] in cs
  {
    assert out[i] in multiset(out);
  }

  lemma TwoCopies(out: seq<Cell>, i: nat, j: nat)
    requires i < j < |out|
    ensures out[i] == out[j] ==> multiset(out)[out[i]] >= 2
  {
    assert out == out[..j] + [out[j]] + out[j + 1..];
    assert out[i] == out[..j][i];
    assert out[i] in multiset(out[..j]);
  }

  /** Reordering cells with different keys leaves them with different keys. */
  lemma KeysApart(cs: seq<Cell>, out: seq<Cell>, i: nat, j: nat)
    requires multiset(cs) == multiset(out) && i < j < |out|
    requires forall k, l :: 0 <= k < l < |cs| ==> cs[k].key != cs[l].key
    ensures out[i].key != out[j].key
  {
    FromList(cs, out, i);
    FromList(cs, out, j);
    TwoCopies(out, i, j);
    OnceInside(cs, out[i]);
  }

  /** Marking outages changes no cell an attempt belongs to. */
  lemma PlainMarked(attempts: seq<Attempt>)
    requires Plain(attempts)
    ensures Plain(Flag(attempts).marked)
  {
    hide KeyText, Locals, Outages.Suspects;
    var marked := Flag(attempts).marked;
    assert |marked| == |attempts| && forall i :: 0 <= i < |marked| ==> KeyOf(marked[i]) == KeyOf(attempts[i]);
  }

  /** The whole classifier, with every map walked in whatever order: for one scan
      there is one report. */
  method ClassifyScan(attempts: array<Attempt>, reachable: bool, standalone: bool, hostOf: string -> string)
      returns (r: Report)
    modifies attempts
    ensures PlainNames(old(attempts[..])) || Plain(old(attempts[..])) ==>
              r == Classified(old(attempts[..]), reachable, standalone, hostOf)
    ensures attempts[..] == Flag(old(attempts[..])).marked
  {
    hide Flag, Aggregated, Verdicts, WellSpelled, WellKeyed, Keys, Plain, PlainNames;
    ghost var was := attempts[..];
    var localNotes, notes := FlagOutages(attempts);
    var marked := attempts[..];
    if PlainNames(was) {
      PlainScan(was);
    }
    if Plain(was) {
      PlainMarked(was);
      PlainKeys(marked);
      AggregatedSpelled(marked);
    }
    var cells := Aggregate(marked);
    if !reachable && !standalone {
      return Report(cells, [UNREACHABLE], localNotes, notes);
    }
    var verdicts := Judge(Ctx(cells, marked, hostOf));
    r := Report(cells, verdicts, localNotes, notes);
  }

  /** The rules, the destinations, and the final order. */
  method Judge(x: Ctx) returns (verdicts: seq<Verdict>)
    ensures WellSpelled(x.cells) ==> verdicts == Verdicts(x)
  {
    hide WellSpelled, Decorated, Differentials, SynAcks, Destinations, SameSubjects, StableSort;
    var rc := new RuleCtx(x);
    rc.Run();
    var all := rc.verdicts + Destinations(x);
    if WellSpelled(x.cells) {
      ghost var d := Decorated(x, Differentials(x));
      SameAsItself(Destinations(x));
      SameAppend(rc.verdicts, d + SynAcks(x, d), Destinations(x), Destinations(x));
      SortSameSubjects(all, Unsorted(x));
    }
    verdicts := StableSort(all, VerdictLe);
  }

  // ---- classifying again ----

  /** Classifying the attempts a classification has marked gives the same report. */
  lemma ReclassifyFixpoint(attempts: seq<Attempt>, reachable: bool, standalone: bool, hostOf: string -> string)
    ensures Classified(Flag(attempts).marked, reachable, standalone, hostOf)
            == Classified(attempts, reachable, standalone, hostOf)
    ensures Flag(Flag(attempts).marked).marked == Flag(attempts).marked
  {
    hide Flag, Context, Verdicts;
    FlagTwice(attempts);
  }

  // ---- a stored report, again and again ----

  /** What is stored of a report: its attempts, remerged and marked. */
  function Stored(report: seq<Attempt>, skew: int, parse: ParseReal): seq<Attempt> {
    Flag(RemergeAll(report, skew, parse)).marked
  }

  lemma MarkIsWith(a: Attempt)
    ensures Outages.MarkOne(a) == With(a, Transient, "true")
  {
  }

  /** Remerging a marked attempt that was remerged before changes nothing, unless it is fragile. */
  lemma RemergeMarked(a: Attempt, marked: bool, skew: int, parse: ParseReal)
    ensures var b := Remerged(a, skew, parse);
            var c := if marked then Outages.MarkOne(b) else b;
            Remerged(c, skew, parse) == c <==> !Fragile(a)
  {
    hide Remerged, Fragile;
    var b := Remerged(a, skew, parse);
    RemergeTwice(a, skew, parse);
    MarkIsWith(b);
    RemergeKeepsMark(b, "true", skew, parse);
    var twice := Remerged(b, skew, parse);
    assert Get(With(twice, Transient, "true").detail, LocalError) == Get(twice.detail, LocalError);
    assert Get(With(b, Transient, "true").detail, LocalError) == Get(b.detail, LocalError);
  }

  lemma StoredAt(report: seq<Attempt>, skew: int, parse: ParseReal, i: nat)
    requires i < |report|
    ensures |Stored(report, skew, parse)| == |report|
    ensures var b := Remerged(report[i], skew, parse);
            Stored(report, skew, parse)[i] == b || Stored(report, skew, parse)[i] == Outages.MarkOne(b)
  {
    hide Remerged, Outages.MarkOne, Locals, Outages.Suspects;
    var m := RemergeAll(report, skew, parse);
    var first := Outages.Mark(m, Locals(m));
    MarkOneTwice(m[i]);
  }

  /** What a stored report says once it is remerged. */
  ghost function Reported(report: seq<Attempt>, skew: int, parse: ParseReal, reachable: bool, standalone: bool,
      hostOf: string -> string): Report {
    Classified(RemergeAll(report, skew, parse), reachable, standalone, hostOf)
  }

  /** The whole pipeline is idempotent exactly when no attempt is fragile: then
      what is stored stays as it is, and so does the report. */
  lemma PipelineFixpoint(report: seq<Attempt>, skew: int, parse: ParseReal, reachable: bool, standalone: bool,
      hostOf: string -> string)
    ensures var s := Stored(report, skew, parse);
            && (RemergeAll(s, skew, parse) == s <==> forall i :: 0 <= i < |report| ==> !Fragile(report[i]))
            && (RemergeAll(s, skew, parse) == s ==>
                  && Stored(s, skew, parse) == s
                  && Reported(s, skew, parse, reachable, standalone, hostOf)
                      == Reported(report, skew, parse, reachable, standalone, hostOf))
  {
    hide Flag, Classified, Remerged, Fragile, Outages.MarkOne;
    var s := Stored(report, skew, parse);
    StoredLength(report, skew, parse);
    forall i | 0 <= i < |report| ensures Remerged(s[i], skew, parse) == s[i] <==> !Fragile(report[i]) {
      StoredAt(report, skew, parse, i);
      RemergeMarked(report[i], s[i] != Remerged(report[i], skew, parse), skew, parse);
    }
    var again := RemergeAll(s, skew, parse);
    assert again == s <==> forall i :: 0 <= i < |s| ==> again[i] == s[i];
    ReclassifyFixpoint(RemergeAll(report, skew, parse), reachable, standalone, hostOf);
  }

  /** So a report as this build records it stays as it is, and says what it said. */
  lemma RecordedReportStays(report: seq<Attempt>, skew: int, parse: ParseReal, reachable: bool, standalone: bool,
      hostOf: string -> string)
    requires forall i :: 0 <= i < |report| ==> Recorded(report[i])
    ensures var s := Stored(report, skew, parse);
            && RemergeAll(s, skew, parse) == s && Stored(s, skew, parse) == s
            && Reported(s, skew, parse, reachable, standalone, hostOf)
                == Reported(report, skew, parse, reachable, standalone, hostOf)
  {
    hide Recorded, Fragile, Stored, RemergeAll, Reported;
    forall i | 0 <= i < |report| ensures !Fragile(report[i]) { RecordedIsNotFragile(report[i]); }
    PipelineFixpoint(report, skew, parse, reachable, standalone, hostOf);
  }

  lemma StoredLength(report: seq<Attempt>, skew: int, parse: ParseReal)
    ensures |Stored(report, skew, parse)| == |report|
  {
    hide Remerged, Outages.MarkOne;
  }

  // ---- strength ----

  /** Every high verdict of a report but the unreachable probe is backed by a cell
      and a control of that report. */
  lemma ReportIsBacked(attempts: seq<Attempt>, reachable: bool, standalone: bool, hostOf: string -> string, v: Verdict)
    requires v in Classified(attempts, reachable, standalone, hostOf).verdicts && v.conf == High
            && v.kind != "probe_unreachable"
    ensures exists f, p :: Rests(Classified(attempts, reachable, standalone, hostOf).cells, v, f, p)
  {
    hide Flag, Verdicts, Rests, Aggregated;
    HighIsBacked(Context(Flag(attempts).marked, hostOf), v);
  }
}
