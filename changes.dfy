/** Change records, the breaking/non-breaking classification table, and the
    comparison report that both comparators fill in. The `ChangeSet` class is
    the mutable `changes` object a comparison appends to; `Record` and
    `RecordedAll` are its abstract, functional view. */
module Changes {
  import opened Json

  /** The closed set of change kinds the comparators know about. */
  datatype ChangeKind =
    | FieldRemoved
    | FieldAdded
    | TypeChanged
    | RequiredAdded
    | EnumValueRemoved
    | ArrayTypeChanged

  /** The fixed table of breaking kinds. */
  const BreakingChangeTypes: seq<ChangeKind> := [FieldRemoved, TypeChanged, RequiredAdded, EnumValueRemoved]

  /** `breakingChangeTypes.includes(type)` */
  predicate IsBreakingChange(kind: ChangeKind)
  {
    kind in BreakingChangeTypes
  }

  /** Exactly the four listed kinds are breaking; field additions and array
      item-type changes are not. */
  lemma BreakingKinds(kind: ChangeKind)
    ensures IsBreakingChange(kind) <==> !(kind == FieldAdded || kind == ArrayTypeChanged)
  {
    match kind
    case FieldAdded => assert kind !in BreakingChangeTypes;
    case ArrayTypeChanged => assert kind !in BreakingChangeTypes;
    case FieldRemoved => assert BreakingChangeTypes[0] == kind;
    case TypeChanged => assert BreakingChangeTypes[1] == kind;
    case RequiredAdded => assert BreakingChangeTypes[2] == kind;
    case EnumValueRemoved => assert BreakingChangeTypes[3] == kind;
  }

  /** The `detail` of a type change: the two sides' types as the comparator read them. */
  datatype Detail = NoDetail | TypeDetail(oldType: Value, newType: Value)

  datatype Change = Change(kind: ChangeKind, path: string, description: string, detail: Detail)

  /** The three fields of `changes` that the comparison updates while it runs. */
  datatype Log = Log(breaking: seq<Change>, nonBreaking: seq<Change>, hasBreakingChanges: bool)

  const EmptyLog := Log([], [], false)

  /** The classify-and-push step: a breaking record goes to `breaking` and
      raises the flag, any other record goes to `nonBreaking`. */
  function Recorded(log: Log, c: Change): (r: Log)
    ensures IsBreakingChange(c.kind) ==> r.breaking == log.breaking + [c] && r.nonBreaking == log.nonBreaking && r.hasBreakingChanges
    ensures !IsBreakingChange(c.kind) ==> r.breaking == log.breaking && r.nonBreaking == log.nonBreaking + [c] && r.hasBreakingChanges == log.hasBreakingChanges
  {
    if IsBreakingChange(c.kind) then Log(log.breaking + [c], log.nonBreaking, true)
    else Log(log.breaking, log.nonBreaking + [c], log.hasBreakingChanges)
  }

  /** Records `cs` one after the other, in order. */
  function RecordedAll(log: Log, cs: seq<Change>): Log
  {
    if cs == [] then log else Recorded(RecordedAll(log, cs[..|cs| - 1]), cs[|cs| - 1])
  }

  /** The breaking records of `cs`, in order. */
  function BreakingOf(cs: seq<Change>): seq<Change>
  {
    if cs == [] then []
    else BreakingOf(cs[..|cs| - 1]) + (if IsBreakingChange(cs[|cs| - 1].kind) then [cs[|cs| - 1]] else [])
  }

  /** The non-breaking records of `cs`, in order. */
  function NonBreakingOf(cs: seq<Change>): seq<Change>
  {
    if cs == [] then []
    else NonBreakingOf(cs[..|cs| - 1]) + (if IsBreakingChange(cs[|cs| - 1].kind) then [] else [cs[|cs| - 1]])
  }

  lemma {:induction false} BreakingOfAppend(a: seq<Change>, b: seq<Change>)
    ensures BreakingOf(a + b) == BreakingOf(a) + BreakingOf(b)
    ensures NonBreakingOf(a + b) == NonBreakingOf(a) + NonBreakingOf(b)
    decreases |b|
  {
    if b == [] {
      assert a + b == a;
    } else {
      assert (a + b)[..|a + b| - 1] == a + b[..|b| - 1];
      BreakingOfAppend(a, b[..|b| - 1]);
    }
  }

  /** Recording a stream splits it by the classification table, keeps each
      side in stream order, and raises the flag exactly when some record
      was breaking. */
  lemma {:induction false} RecordAllSplits(log: Log, cs: seq<Change>)
    ensures RecordedAll(log, cs).breaking == log.breaking + BreakingOf(cs)
    ensures RecordedAll(log, cs).nonBreaking == log.nonBreaking + NonBreakingOf(cs)
    ensures RecordedAll(log, cs).hasBreakingChanges == (log.hasBreakingChanges || BreakingOf(cs) != [])
  {
    if cs != [] {
      RecordAllSplits(log, cs[..|cs| - 1]);
    }
  }

  lemma {:induction false} RecordAllAppend(log: Log, a: seq<Change>, b: seq<Change>)
    ensures RecordedAll(log, a + b) == RecordedAll(RecordedAll(log, a), b)
  {
    var mid := RecordedAll(log, a);
    RecordAllSplits(log, a + b);
    RecordAllSplits(log, a);
    RecordAllSplits(mid, b);
    BreakingOfAppend(a, b);
    ConcatAssoc(log.breaking, BreakingOf(a), BreakingOf(b));
    ConcatAssoc(log.nonBreaking, NonBreakingOf(a), NonBreakingOf(b));
  }

  lemma RecordedAllOne(log: Log, c: Change)
    ensures RecordedAll(log, [c]) == Recorded(log, c)
  {
    assert [c][..0] == [];
  }

  /** Occurrences in `cs` of a record of the given kind at the given path. */
  function Count(cs: seq<Change>, kind: ChangeKind, path: string): nat
  {
    if cs == [] then 0
    else Count(cs[..|cs| - 1], kind, path) + (if cs[|cs| - 1].kind == kind && cs[|cs| - 1].path == path then 1 else 0)
  }

  lemma {:induction false} CountAppend(a: seq<Change>, b: seq<Change>, kind: ChangeKind, path: string)
    ensures Count(a + b, kind, path) == Count(a, kind, path) + Count(b, kind, path)
    decreases |b|
  {
    if b == [] {
      assert a + b == a;
    } else {
      assert (a + b)[..|a + b| - 1] == a + b[..|b| - 1];
      CountAppend(a, b[..|b| - 1], kind, path);
    }
  }

  lemma CountOne(c: Change, kind: ChangeKind, path: string)
    ensures Count([c], kind, path) == if c.kind == kind && c.path == path then 1 else 0
  {
    assert [c][..0] == [];
  }

  /** Classification never moves a record of a breaking kind to the other list. */
  lemma {:induction false} CountBreakingOf(cs: seq<Change>, kind: ChangeKind, path: string)
    ensures Count(BreakingOf(cs), kind, path) == (if IsBreakingChange(kind) then Count(cs, kind, path) else 0)
  {
    if cs != [] {
      var init, last := cs[..|cs| - 1], cs[|cs| - 1];
      var tail := if IsBreakingChange(last.kind) then [last] else [];
      assert BreakingOf(cs) == BreakingOf(init) + tail;
      assert Count(cs, kind, path) == Count(init, kind, path) + Count([last], kind, path) by {
        CountOne(last, kind, path);
      }
      if tail != [] {
        CountOne(last, kind, path);
      }
      CountBreakingOf(init, kind, path);
      CountAppend(BreakingOf(init), tail, kind, path);
    }
  }

  lemma {:induction false} CountNonBreakingOf(cs: seq<Change>, kind: ChangeKind, path: string)
    ensures Count(NonBreakingOf(cs), kind, path) == (if IsBreakingChange(kind) then 0 else Count(cs, kind, path))
  {
    if cs != [] {
      var init, last := cs[..|cs| - 1], cs[|cs| - 1];
      var tail := if IsBreakingChange(last.kind) then [] else [last];
      assert NonBreakingOf(cs) == NonBreakingOf(init) + tail;
      assert Count(cs, kind, path) == Count(init, kind, path) + Count([last], kind, path) by {
        CountOne(last, kind, path);
      }
      if tail != [] {
        CountOne(last, kind, path);
      }
      CountNonBreakingOf(init, kind, path);
      CountAppend(NonBreakingOf(init), tail, kind, path);
    }
  }

  lemma {:induction false} CountPositive(cs: seq<Change>, kind: ChangeKind, path: string)
    ensures Count(cs, kind, path) > 0 <==> exists c :: c in cs && c.kind == kind && c.path == path
  {
    if cs != [] {
      var init := cs[..|cs| - 1];
      CountPositive(init, kind, path);
      assert cs == init + [cs[|cs| - 1]];
    }
  }

  /** The records of `cs` of one kind, in order. */
  function OfKind(cs: seq<Change>, kind: ChangeKind): seq<Change>
  {
    if cs == [] then []
    else OfKind(cs[..|cs| - 1], kind) + (if cs[|cs| - 1].kind == kind then [cs[|cs| - 1]] else [])
  }

  lemma {:induction false} OfKindAppend(a: seq<Change>, b: seq<Change>, kind: ChangeKind)
    ensures OfKind(a + b, kind) == OfKind(a, kind) + OfKind(b, kind)
    decreases |b|
  {
    if b == [] {
      assert a + b == a;
    } else {
      assert (a + b)[..|a + b| - 1] == a + b[..|b| - 1];
      OfKindAppend(a, b[..|b| - 1], kind);
    }
  }

  lemma {:induction false} OfKindAll(cs: seq<Change>, kind: ChangeKind)
    requires forall c :: c in cs ==> c.kind == kind
    ensures OfKind(cs, kind) == cs
  {
    if cs != [] {
      OfKindAll(cs[..|cs| - 1], kind);
    }
  }

  lemma {:induction false} OfKindNone(cs: seq<Change>, kind: ChangeKind)
    requires forall c :: c in cs ==> c.kind != kind
    ensures OfKind(cs, kind) == []
  {
    if cs != [] {
      OfKindNone(cs[..|cs| - 1], kind);
    }
  }

  /** Filtering by a kind keeps every record of that kind. */
  lemma {:induction false} CountOfKind(cs: seq<Change>, kind: ChangeKind, path: string)
    ensures Count(OfKind(cs, kind), kind, path) == Count(cs, kind, path)
  {
    if cs != [] {
      var init, last := cs[..|cs| - 1], cs[|cs| - 1];
      CountOfKind(init, kind, path);
      CountAppend(OfKind(init, kind), if last.kind == kind then [last] else [], kind, path);
    }
  }

  lemma {:induction false} CountNoKind(cs: seq<Change>, kind: ChangeKind, path: string)
    requires forall c :: c in cs ==> c.kind != kind
    ensures Count(cs, kind, path) == 0
  {
    if cs != [] {
      CountNoKind(cs[..|cs| - 1], kind, path);
    }
  }

  /** A stream of breaking records is kept whole, in order, on the breaking side. */
  lemma {:induction false} AllBreaking(cs: seq<Change>)
    requires forall c :: c in cs ==> IsBreakingChange(c.kind)
    ensures BreakingOf(cs) == cs && NonBreakingOf(cs) == []
  {
    if cs != [] {
      AllBreaking(cs[..|cs| - 1]);
    }
  }

  /** A stream of added-field and type-changed records splits by kind. */
  lemma {:induction false} AddedOrChangedSplit(cs: seq<Change>)
    requires forall c :: c in cs ==> c.kind == FieldAdded || c.kind == TypeChanged
    ensures BreakingOf(cs) == OfKind(cs, TypeChanged) && NonBreakingOf(cs) == OfKind(cs, FieldAdded)
  {
    if cs != [] {
      AddedOrChangedSplit(cs[..|cs| - 1]);
      BreakingKinds(cs[|cs| - 1].kind);
    }
  }

  /** A record of the stream lands on the side its kind is classified to. */
  lemma {:induction false} ClassifiedInto(cs: seq<Change>, c: Change)
    requires c in cs
    ensures IsBreakingChange(c.kind) ==> c in BreakingOf(cs)
    ensures !IsBreakingChange(c.kind) ==> c in NonBreakingOf(cs)
  {
    var init := cs[..|cs| - 1];
    if c != cs[|cs| - 1] {
      InInitOrLast(cs, c);
      ClassifiedInto(init, c);
    }
  }

  lemma {:induction false} InBreakingOf(cs: seq<Change>, c: Change)
    requires c in BreakingOf(cs) || c in NonBreakingOf(cs)
    ensures c in cs
  {
    if cs != [] {
      var init := cs[..|cs| - 1];
      if c != cs[|cs| - 1] {
        InBreakingOf(init, c);
      }
    }
  }

  datatype Summary = Summary(breakingChangesCount: nat, nonBreakingChangesCount: nat, hasBreakingChanges: bool)

  /** The comparison report returned to callers. */
  datatype Report = Report(breaking: seq<Change>, nonBreaking: seq<Change>, summary: Summary, hasBreakingChanges: bool)

  /** The terminal step of a comparison: the summary is taken from the lists. */
  function Summarize(log: Log): (r: Report)
    ensures r.breaking == log.breaking && r.nonBreaking == log.nonBreaking
    ensures r.hasBreakingChanges == log.hasBreakingChanges
    ensures r.summary.breakingChangesCount == |r.breaking| && r.summary.nonBreakingChangesCount == |r.nonBreaking|
    ensures r.summary.hasBreakingChanges == r.hasBreakingChanges
  {
    Report(log.breaking, log.nonBreaking,
           Summary(|log.breaking|, |log.nonBreaking|, log.hasBreakingChanges),
           log.hasBreakingChanges)
  }

  /** The report of a comparison that found exactly one change. */
  lemma SummarizeSingle(c: Change)
    ensures IsBreakingChange(c.kind) ==> Summarize(RecordedAll(EmptyLog, [c])) == Report([c], [], Summary(1, 0, true), true)
    ensures !IsBreakingChange(c.kind) ==> Summarize(RecordedAll(EmptyLog, [c])) == Report([], [c], Summary(0, 1, false), false)
  {
    RecordedAllOne(EmptyLog, c);
  }

  /** What every report of either comparator satisfies. */
  predicate Consistent(r: Report)
  {
    && (r.hasBreakingChanges <==> r.breaking != [])
    && r.summary == Summary(|r.breaking|, |r.nonBreaking|, r.hasBreakingChanges)
    && (forall c :: c in r.breaking ==> IsBreakingChange(c.kind))
    && (forall c :: c in r.nonBreaking ==> !IsBreakingChange(c.kind))
  }

  /** Classifying any stream of records from a fresh log yields a consistent
      report: the flag is raised exactly when `breaking` is non-empty and the
      summary counts are the list lengths. */
  lemma ClassifiedReportConsistent(cs: seq<Change>)
    ensures Consistent(Summarize(RecordedAll(EmptyLog, cs)))
    ensures Summarize(RecordedAll(EmptyLog, cs)).breaking == BreakingOf(cs)
    ensures Summarize(RecordedAll(EmptyLog, cs)).nonBreaking == NonBreakingOf(cs)
  {
    RecordAllSplits(EmptyLog, cs);
  }

  const EmptyReport := Summarize(EmptyLog)

  /** The `changes` object of one comparison run. */
  class ChangeSet {
    var breaking: seq<Change>
    var nonBreaking: seq<Change>
    var hasBreakingChanges: bool

    function State(): Log
      reads this
    {
      Log(breaking, nonBreaking, hasBreakingChanges)
    }

    constructor ()
      ensures State() == EmptyLog
    {
      breaking, nonBreaking, hasBreakingChanges := [], [], false;
    }

    /** `if (isBreakingChange(change.type)) { breaking.push; flag } else nonBreaking.push` */
    method Record(c: Change)
      modifies this
      ensures State() == Recorded(old(State()), c)
    {
      if IsBreakingChange(c.kind) {
        breaking := breaking + [c];
        hasBreakingChanges := true;
      } else {
        nonBreaking := nonBreaking + [c];
      }
    }

    /** A push to `nonBreaking` that skips the table (used for added fields,
        which the table classifies the same way). */
    method PushNonBreaking(c: Change)
      requires !IsBreakingChange(c.kind)
      modifies this
      ensures State() == Recorded(old(State()), c)
    {
      nonBreaking := nonBreaking + [c];
    }

    /** A push to `breaking` that raises the flag without consulting the
        table (the test-local comparator's style). */
    method PushBreaking(c: Change)
      requires IsBreakingChange(c.kind)
      modifies this
      ensures State() == Recorded(old(State()), c)
    {
      breaking := breaking + [c];
      hasBreakingChanges := true;
    }

    /** The summary step: `changes.summary = {…}` and the report returned. */
    method ToReport() returns (r: Report)
      ensures r == Summarize(State())
    {
      r := Report(breaking, nonBreaking, Summary(|breaking|, |nonBreaking|, hasBreakingChanges), hasBreakingChanges);
    }
  }
}
