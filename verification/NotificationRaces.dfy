/**
 * Trims of the notification store interleaved call by call with each other, with inserts, and with
 * notifications being marked read.  A trim counts, selects and deletes in three separate calls, so
 * two trims of one recipient can delete too much; this module says exactly when.
 */
module NotificationRaces {
  import opened Prelude
  import opened NotificationTrim

  /** `used` is history: ids are generated once. */
  datatype State = State(rows: Rows, used: set<Id>, trims: map<nat, Trimmer>)

  datatype Step =
    | Insert(id: Id, note: Note)
    | MarkRead(ids: set<Id>)
    | Start(c: nat, recipient: string)
    | Next(c: nat)                        // the next repository call of trim `c`

  predicate Enabled(s: State, step: Step) {
    match step
    case Insert(id, _) => id !in s.used
    case MarkRead(_) => true
    case Start(c, _) => c !in s.trims
    case Next(c) => c in s.trims && !s.trims[c].Finished?
  }

  function Marked(rows: Rows, ids: set<Id>): Rows {
    map id | id in rows :: if id in ids then rows[id].(read := true) else rows[id]
  }

  function Apply(s: State, step: Step): State
    requires Enabled(s, step)
  {
    match step
    case Insert(id, note) => s.(rows := s.rows[id := note], used := s.used + {id})
    case MarkRead(ids) => s.(rows := Marked(s.rows, ids))
    case Start(c, recipient) => s.(trims := s.trims[c := Counting(recipient)])
    case Next(c) =>
      var (rows, next) := Await(s.rows, s.trims[c]);
      s.(rows := rows, trims := s.trims[c := next])
  }

  predicate Legal(s: State, steps: seq<Step>)
    decreases steps
  {
    steps == [] || (Enabled(s, steps[0]) && Legal(Apply(s, steps[0]), steps[1..]))
  }

  function Final(s: State, steps: seq<Step>): State
    requires Legal(s, steps)
    decreases steps
  {
    if steps == [] then s else Final(Apply(s, steps[0]), steps[1..])
  }

  predicate Initial(s: State) {
    s.trims == map[] && s.rows.Keys <= s.used
  }

  // ---- what every trim knows --------------------------------------------------------------

  /** A selection holds notifications of its own recipient, some of them perhaps gone by now. */
  predicate Owned(rows: Rows, used: set<Id>, trimmer: Trimmer) {
    match trimmer
    case Finding(_, limit) => limit > 0
    case Deleting(recipient, ids) => ids <= used && forall id | id in ids && id in rows :: rows[id].recipient == recipient
    case _ => true
  }

  ghost predicate Inv(s: State) {
    s.rows.Keys <= s.used && forall c | c in s.trims :: Owned(s.rows, s.used, s.trims[c])
  }

  lemma InvStep(s: State, step: Step)
    requires Inv(s) && Enabled(s, step)
    ensures Inv(Apply(s, step))
  {
  }

  // ---- different recipients ---------------------------------------------------------------

  lemma DeleteElsewhere(rows: Rows, gone: set<Id>, recipient: string)
    requires forall id | id in gone && id in rows :: rows[id].recipient != recipient
    ensures Mine(rows - gone, recipient) == Mine(rows, recipient)
    ensures forall k :: First(rows - gone, Mine(rows, recipient), k) == First(rows, Mine(rows, recipient), k)
  {
    var mine := Mine(rows, recipient);
    assert mine <= (rows - gone).Keys;
    forall id | id in mine ensures Ahead(rows - gone, mine, id) == Ahead(rows, mine, id) {
    }
  }

  /** What another recipient's trim does next changes nothing about one's own next call. */
  lemma AwaitElsewhere(rows: Rows, used: set<Id>, mine: Trimmer, other: Trimmer)
    requires Owned(rows, used, mine) && Owned(rows, used, other) && mine.recipient != other.recipient
    ensures Await(Await(rows, other).0, mine).1 == Await(rows, mine).1
    ensures Await(Await(rows, other).0, mine).0 == Await(Await(rows, mine).0, other).0
  {
    if other.Deleting? {
      DeleteElsewhere(rows, other.ids, mine.recipient);
    }
  }

  /** Calls of trims of different recipients commute, in every reachable state. */
  lemma DifferentRecipientsCommute(s: State, a: nat, b: nat)
    requires Inv(s) && Enabled(s, Next(a)) && Enabled(s, Next(b))
    requires s.trims[a].recipient != s.trims[b].recipient
    ensures Apply(Apply(s, Next(a)), Next(b)) == Apply(Apply(s, Next(b)), Next(a))
  {
    AwaitElsewhere(s.rows, s.used, s.trims[a], s.trims[b]);
    AwaitElsewhere(s.rows, s.used, s.trims[b], s.trims[a]);
    assert s.trims[a := Await(s.rows, s.trims[a]).1][b := Await(s.rows, s.trims[b]).1]
        == s.trims[b := Await(s.rows, s.trims[b]).1][a := Await(s.rows, s.trims[a]).1];
  }

  // ---- one recipient ----------------------------------------------------------------------

  ghost predicate DeletePending(s: State, recipient: string) {
    exists c | c in s.trims :: s.trims[c].Deleting? && s.trims[c].recipient == recipient
  }

  /** What the deletes already decided on will still take from a recipient. */
  ghost function Doomed(s: State, recipient: string): set<Id> {
    set id | id in Mine(s.rows, recipient) && IsDoomed(s.trims, recipient, id)
  }

  ghost predicate IsDoomed(trims: map<nat, Trimmer>, recipient: string, id: Id) {
    exists c | c in trims :: trims[c].Deleting? && trims[c].recipient == recipient && id in trims[c].ids
  }

  /** Whatever deletes of this recipient are on their way, they leave at least 1000. */
  ghost predicate CapSafe(s: State, recipient: string) {
    DeletePending(s, recipient) ==> |Mine(s.rows, recipient) - Doomed(s, recipient)| >= MAX_PER_USER
  }

  ghost predicate AlwaysCapSafe(s: State, steps: seq<Step>, recipient: string)
    requires Legal(s, steps)
    decreases steps
  {
    CapSafe(s, recipient) && (steps == [] || AlwaysCapSafe(Apply(s, steps[0]), steps[1..], recipient))
  }

  /** A trim that selects finds at least as many notifications as it counted. */
  predicate SteadyStep(s: State, step: Step, recipient: string)
    requires Enabled(s, step)
  {
    step.Next? && s.trims[step.c].Finding? && s.trims[step.c].recipient == recipient ==>
      |Mine(s.rows, recipient)| >= s.trims[step.c].limit + MAX_PER_USER
  }

  predicate Steady(s: State, steps: seq<Step>, recipient: string)
    requires Legal(s, steps)
    decreases steps
  {
    steps == [] || (SteadyStep(s, steps[0], recipient) && Steady(Apply(s, steps[0]), steps[1..], recipient))
  }

  /** No notification of the recipient is marked read while a delete of theirs is pending. */
  ghost predicate MarksApart(s: State, steps: seq<Step>, recipient: string)
    requires Legal(s, steps)
    decreases steps
  {
    steps == [] || (
      && (steps[0].MarkRead? && DeletePending(s, recipient) ==> steps[0].ids !! Mine(s.rows, recipient))
      && MarksApart(Apply(s, steps[0]), steps[1..], recipient))
  }

  /** Only what a trim would delete is doomed. */
  ghost predicate Good(s: State, recipient: string) {
    DeletePending(s, recipient) ==>
      Doomed(s, recipient) !! Kept(s.rows, recipient) && |Mine(s.rows, recipient)| >= MAX_PER_USER
  }

  lemma GoodIsSafe(s: State, recipient: string)
    requires Good(s, recipient)
    ensures CapSafe(s, recipient)
  {
    if DeletePending(s, recipient) {
      LastOfIsLast(s.rows, Mine(s.rows, recipient));
      SubsetSize(Kept(s.rows, recipient), Mine(s.rows, recipient) - Doomed(s, recipient));
    }
  }

  lemma InsertGood(s: State, id: Id, note: Note, recipient: string)
    requires Inv(s) && Good(s, recipient) && Enabled(s, Insert(id, note))
    ensures Good(Apply(s, Insert(id, note)), recipient)
  {
    var t := Apply(s, Insert(id, note));
    if DeletePending(s, recipient) {
      MineInsert(s.rows, id, note, recipient);
      SubsetSize(Mine(s.rows, recipient), Mine(t.rows, recipient));
      KeptAfterInsert(s.rows, id, note, recipient);
      assert !IsDoomed(s.trims, recipient, id);
    }
  }

  lemma MarkGood(s: State, ids: set<Id>, recipient: string)
    requires Good(s, recipient) && (DeletePending(s, recipient) ==> ids !! Mine(s.rows, recipient))
    ensures Good(Apply(s, MarkRead(ids)), recipient)
  {
    var rows := Marked(s.rows, ids);
    assert Mine(rows, recipient) == Mine(s.rows, recipient);
    if DeletePending(s, recipient) {
      LastOfLocal(s.rows, rows, Mine(s.rows, recipient));
    }
  }

  lemma FindGood(s: State, c: nat, recipient: string)
    requires Inv(s) && Good(s, recipient) && c in s.trims && s.trims[c].Finding?
    requires SteadyStep(s, Next(c), recipient)
    ensures Good(Apply(s, Next(c)), recipient)
  {
    var t := Apply(s, Next(c));
    if s.trims[c].recipient == recipient {
      var mine := Mine(s.rows, recipient);
      assert t.trims[c].ids <= First(s.rows, mine, |mine| - MAX_PER_USER);
      forall id | id in Doomed(t, recipient) ensures id !in Kept(s.rows, recipient) {
        if id !in t.trims[c].ids {
          assert IsDoomed(s.trims, recipient, id);
        }
      }
    } else {
      SameDeletes(s.trims, t.trims, c, recipient);
    }
  }

  /** A trim that neither starts nor ends to delete from this recipient changes nothing about theirs. */
  lemma SameDeletes(before: map<nat, Trimmer>, after: map<nat, Trimmer>, c: nat, recipient: string)
    requires c in after && after == before[c := after[c]]
    requires c in before && before[c].Deleting? ==> before[c].recipient != recipient
    requires after[c].Deleting? ==> after[c].recipient != recipient
    ensures forall id :: IsDoomed(after, recipient, id) <==> IsDoomed(before, recipient, id)
    ensures (exists k | k in after :: after[k].Deleting? && after[k].recipient == recipient)
       <==> (exists k | k in before :: before[k].Deleting? && before[k].recipient == recipient)
  {
    assert forall k | k in after && after[k].Deleting? && after[k].recipient == recipient ::
        k in before && before[k] == after[k];
    assert forall k | k in before && before[k].Deleting? && before[k].recipient == recipient ::
        k in after && after[k] == before[k];
  }

  lemma DeleteGood(s: State, c: nat, recipient: string)
    requires Inv(s) && Good(s, recipient) && c in s.trims && s.trims[c].Deleting?
    ensures Good(Apply(s, Next(c)), recipient)
    ensures Survivors(Apply(s, Next(c)).rows, recipient) == Survivors(s.rows, recipient)
  {
    var (t, ids) := (Apply(s, Next(c)), s.trims[c].ids);
    if s.trims[c].recipient == recipient {
      forall id | id in ids && id in Mine(s.rows, recipient) ensures id in Doomed(s, recipient) {
      }
      DeletingVictims(s.rows, ids, recipient);
      assert Survivors(t.rows, recipient).Keys == Kept(t.rows, recipient);
      assert Survivors(s.rows, recipient).Keys == Kept(s.rows, recipient);
      LastOfIsLast(s.rows, Mine(s.rows, recipient));
      SubsetSize(Kept(t.rows, recipient), Mine(t.rows, recipient));
      assert forall id | IsDoomed(t.trims, recipient, id) :: IsDoomed(s.trims, recipient, id);
    } else {
      DeleteElsewhere(s.rows, ids, recipient);
      DeletingVictims(s.rows, ids, recipient);
      assert Survivors(t.rows, recipient).Keys == Kept(t.rows, recipient);
      assert Survivors(s.rows, recipient).Keys == Kept(s.rows, recipient);
      SameDeletes(s.trims, t.trims, c, recipient);
    }
  }

  lemma GoodStep(s: State, step: Step, recipient: string)
    requires Inv(s) && Good(s, recipient) && Enabled(s, step) && SteadyStep(s, step, recipient)
    requires step.MarkRead? && DeletePending(s, recipient) ==> step.ids !! Mine(s.rows, recipient)
    ensures Good(Apply(s, step), recipient)
  {
    match step
    case Insert(id, note) => InsertGood(s, id, note, recipient);
    case MarkRead(ids) => MarkGood(s, ids, recipient);
    case Start(c, _) => SameDeletes(s.trims, Apply(s, step).trims, c, recipient);
    case Next(c) =>
      if s.trims[c].Finding? {
        FindGood(s, c, recipient);
      } else if s.trims[c].Deleting? {
        DeleteGood(s, c, recipient);
      } else {
        SameDeletes(s.trims, Apply(s, step).trims, c, recipient);
      }
  }

  lemma {:induction false} SteadySafe(s: State, steps: seq<Step>, recipient: string)
    requires Inv(s) && Good(s, recipient) && Legal(s, steps)
    requires MarksApart(s, steps, recipient) && Steady(s, steps, recipient)
    ensures AlwaysCapSafe(s, steps, recipient)
    decreases steps
  {
    GoodIsSafe(s, recipient);
    if steps != [] {
      InvStep(s, steps[0]);
      GoodStep(s, steps[0], recipient);
      SteadySafe(Apply(s, steps[0]), steps[1..], recipient);
    }
  }

  lemma NoNewDeletes(s: State, step: Step, recipient: string)
    requires Enabled(s, step)
    requires !(step.Next? && s.trims[step.c].Finding? && s.trims[step.c].recipient == recipient)
    ensures DeletePending(Apply(s, step), recipient) ==> DeletePending(s, recipient)
    ensures forall id | IsDoomed(Apply(s, step).trims, recipient, id) :: IsDoomed(s.trims, recipient, id)
  {
    var t := Apply(s, step);
    assert forall k | k in t.trims && t.trims[k].Deleting? && t.trims[k].recipient == recipient ::
        k in s.trims && s.trims[k] == t.trims[k];
  }

  /** What no pending delete takes stays, whatever the next call is. */
  lemma SparedStays(s: State, step: Step, recipient: string, id: Id)
    requires Inv(s) && Enabled(s, step) && id in Mine(s.rows, recipient) && !IsDoomed(s.trims, recipient, id)
    ensures id in Mine(Apply(s, step).rows, recipient)
  {
    if step.Next? && s.trims[step.c].Deleting? {
      assert Owned(s.rows, s.used, s.trims[step.c]);
    }
  }

  /** Only a find can break the cap: inserts, marking read, counts and deletes never do. */
  lemma OnlyFindsBreakTheCap(s: State, step: Step, recipient: string)
    requires Inv(s) && CapSafe(s, recipient) && Enabled(s, step)
    requires !(step.Next? && s.trims[step.c].Finding? && s.trims[step.c].recipient == recipient)
    ensures CapSafe(Apply(s, step), recipient)
  {
    var t := Apply(s, step);
    NoNewDeletes(s, step, recipient);
    forall id | id in Mine(s.rows, recipient) && !IsDoomed(s.trims, recipient, id)
      ensures id in Mine(t.rows, recipient)
    {
      SparedStays(s, step, recipient, id);
    }
    SparedGrows(s, t, recipient);
  }

  lemma SparedGrows(s: State, t: State, recipient: string)
    requires forall id | id in Mine(s.rows, recipient) && !IsDoomed(s.trims, recipient, id) :: id in Mine(t.rows, recipient)
    requires forall id | IsDoomed(t.trims, recipient, id) :: IsDoomed(s.trims, recipient, id)
    requires DeletePending(t, recipient) ==> DeletePending(s, recipient)
    ensures CapSafe(s, recipient) ==> CapSafe(t, recipient)
  {
    SubsetSize(Mine(s.rows, recipient) - Doomed(s, recipient), Mine(t.rows, recipient) - Doomed(t, recipient));
  }

  /**
   * What this find selects and what pending deletes have selected, together, fit in the surplus over
   * 1000: known before the find, and asked of finds only.
   */
  ghost predicate Fits(s: State, step: Step, recipient: string)
    requires Enabled(s, step)
  {
    step.Next? && s.trims[step.c].Finding? && s.trims[step.c].recipient == recipient ==>
      var selected := First(s.rows, Mine(s.rows, recipient), s.trims[step.c].limit);
      MAX_PER_USER + |Doomed(s, recipient) + selected| <= |Mine(s.rows, recipient)|
  }

  ghost predicate FitsAll(s: State, steps: seq<Step>, recipient: string)
    requires Legal(s, steps)
    decreases steps
  {
    steps == [] || (Fits(s, steps[0], recipient) && FitsAll(Apply(s, steps[0]), steps[1..], recipient))
  }

  lemma FindDooms(s: State, c: nat, recipient: string)
    requires c in s.trims && s.trims[c].Finding? && s.trims[c].recipient == recipient
    ensures var (t, mine) := (Apply(s, Next(c)), Mine(s.rows, recipient));
            && t.rows == s.rows && DeletePending(t, recipient)
            && Doomed(t, recipient) == Doomed(s, recipient) + First(s.rows, mine, s.trims[c].limit)
  {
    var t := Apply(s, Next(c));
    var selected := First(s.rows, Mine(s.rows, recipient), s.trims[c].limit);
    assert t.trims[c] == Deleting(recipient, selected);
    forall id | id in Mine(s.rows, recipient)
      ensures IsDoomed(t.trims, recipient, id) <==> IsDoomed(s.trims, recipient, id) || id in selected
    {
      if IsDoomed(s.trims, recipient, id) {
        var k :| k in s.trims && s.trims[k].Deleting? && s.trims[k].recipient == recipient && id in s.trims[k].ids;
        assert t.trims[k] == s.trims[k];
      }
    }
  }

  /** A find keeps the cap exactly when it fits; nothing else can break it. */
  lemma StepFits(s: State, step: Step, recipient: string)
    requires Inv(s) && CapSafe(s, recipient) && Enabled(s, step)
    ensures CapSafe(Apply(s, step), recipient) <==> Fits(s, step, recipient)
  {
    if step.Next? && s.trims[step.c].Finding? && s.trims[step.c].recipient == recipient {
      FindDooms(s, step.c, recipient);
      LessSize(Mine(s.rows, recipient), Doomed(Apply(s, step), recipient));
    } else {
      OnlyFindsBreakTheCap(s, step, recipient);
    }
  }

  lemma {:induction false} SafeIffFits(s: State, steps: seq<Step>, recipient: string)
    requires Inv(s) && CapSafe(s, recipient) && Legal(s, steps)
    ensures AlwaysCapSafe(s, steps, recipient) <==> FitsAll(s, steps, recipient)
    decreases steps
  {
    if steps != [] {
      InvStep(s, steps[0]);
      StepFits(s, steps[0], recipient);
      if Fits(s, steps[0], recipient) {
        SafeIffFits(Apply(s, steps[0]), steps[1..], recipient);
      }
    }
  }

  /**
   * The exact condition, for every interleaving of trims, inserts and marking read: the deletes on
   * their way leave a recipient 1000 in every state of the run, if and only if each find of theirs
   * selects no more, with what is already selected, than the surplus.
   */
  lemma CapKeptIffFits(s: State, steps: seq<Step>, recipient: string)
    requires Initial(s) && Legal(s, steps)
    ensures AlwaysCapSafe(s, steps, recipient) <==> FitsAll(s, steps, recipient)
  {
    SafeIffFits(s, steps, recipient);
  }

  /** A find that fits finds at least what was counted. */
  lemma FitsIsSteady(s: State, step: Step, recipient: string)
    requires Inv(s) && Enabled(s, step) && Fits(s, step, recipient)
    ensures SteadyStep(s, step, recipient)
  {
    if step.Next? && s.trims[step.c].Finding? && s.trims[step.c].recipient == recipient {
      var (mine, limit) := (Mine(s.rows, recipient), s.trims[step.c].limit);
      FirstSize(s.rows, mine, limit);
      SubsetSize(First(s.rows, mine, limit), Doomed(s, recipient) + First(s.rows, mine, limit));
    }
  }

  lemma {:induction false} FittingIsSteady(s: State, steps: seq<Step>, recipient: string)
    requires Inv(s) && Legal(s, steps) && FitsAll(s, steps, recipient)
    ensures Steady(s, steps, recipient)
    decreases steps
  {
    if steps != [] {
      InvStep(s, steps[0]);
      FitsIsSteady(s, steps[0], recipient);
      FittingIsSteady(Apply(s, steps[0]), steps[1..], recipient);
    }
  }

  /**
   * With marks kept apart, the counts alone decide: the cap is kept if and only if each trim of the
   * recipient still finds what it counted.
   */
  lemma CapKeptIffSteady(s: State, steps: seq<Step>, recipient: string)
    requires Initial(s) && Legal(s, steps) && MarksApart(s, steps, recipient)
    ensures AlwaysCapSafe(s, steps, recipient) <==> Steady(s, steps, recipient)
  {
    if Steady(s, steps, recipient) {
      SteadySafe(s, steps, recipient);
    }
    if AlwaysCapSafe(s, steps, recipient) {
      CapKeptIffFits(s, steps, recipient);
      FittingIsSteady(s, steps, recipient);
    }
  }

  /** A delete from a safe state leaves at least 1000. */
  lemma SafeDeleteKeepsCap(s: State, c: nat)
    requires Inv(s) && Enabled(s, Next(c)) && s.trims[c].Deleting? && CapSafe(s, s.trims[c].recipient)
    ensures |Mine(Apply(s, Next(c)).rows, s.trims[c].recipient)| >= MAX_PER_USER
  {
    var r := s.trims[c].recipient;
    assert forall id | id in Mine(s.rows, r) && id in s.trims[c].ids :: IsDoomed(s.trims, r, id);
    SubsetSize(Mine(s.rows, r) - Doomed(s, r), Mine(Apply(s, Next(c)).rows, r));
  }

  /** No delete of the run takes one of the recipient's notifications. */
  predicate NoneTaken(s: State, steps: seq<Step>, recipient: string)
    requires Legal(s, steps)
    decreases steps
  {
    steps == [] || (
      && (steps[0].Next? && s.trims[steps[0].c].Deleting? ==> s.trims[steps[0].c].ids !! Mine(s.rows, recipient))
      && NoneTaken(Apply(s, steps[0]), steps[1..], recipient))
  }

  lemma MineShrinks(s: State, step: Step, recipient: string)
    requires Inv(s) && Enabled(s, step) && (step.Insert? ==> step.note.recipient != recipient)
    ensures Mine(Apply(s, step).rows, recipient) <= Mine(s.rows, recipient)
  {
  }

  lemma TakenStep(s: State, step: Step, recipient: string)
    requires Inv(s) && Enabled(s, step) && (step.Insert? ==> step.note.recipient != recipient)
    ensures var (before, after) := (Mine(s.rows, recipient), Mine(Apply(s, step).rows, recipient));
            && after <= before && |after| <= |before|
            && (|after| == |before| <==> (step.Next? && s.trims[step.c].Deleting? ==> s.trims[step.c].ids !! before))
  {
    var (before, after) := (Mine(s.rows, recipient), Mine(Apply(s, step).rows, recipient));
    MineShrinks(s, step, recipient);
    SubsetSize(after, before);
    LessSize(before, after);
    assert after == before <==> (step.Next? && s.trims[step.c].Deleting? ==> s.trims[step.c].ids !! before);
  }

  lemma {:induction false} CountHoldsIffNoneTaken(s: State, steps: seq<Step>, recipient: string)
    requires Inv(s) && Legal(s, steps)
    requires forall i | 0 <= i < |steps| && steps[i].Insert? :: steps[i].note.recipient != recipient
    ensures |Mine(Final(s, steps).rows, recipient)| <= |Mine(s.rows, recipient)|
    ensures |Mine(Final(s, steps).rows, recipient)| == |Mine(s.rows, recipient)| <==> NoneTaken(s, steps, recipient)
    decreases steps
  {
    if steps != [] {
      InvStep(s, steps[0]);
      TakenStep(s, steps[0], recipient);
      CountHoldsIffNoneTaken(Apply(s, steps[0]), steps[1..], recipient);
    }
  }

  /**
   * In terms of the calls: between a trim's count and its find, with no insert of its recipient,
   * the find is steady if and only if no delete took one of the notifications.
   */
  lemma SteadyIffNoneTaken(s: State, steps: seq<Step>, c: nat)
    requires Inv(s) && Enabled(s, Next(c)) && s.trims[c].Counting? && Apply(s, Next(c)).trims[c].Finding?
    requires Legal(Apply(s, Next(c)), steps) && Next(c) !in steps
    requires forall i | 0 <= i < |steps| && steps[i].Insert? :: steps[i].note.recipient != s.trims[c].recipient
    ensures var (counted, found) := (Apply(s, Next(c)), Final(Apply(s, Next(c)), steps));
            && Enabled(found, Next(c)) && found.trims[c] == counted.trims[c]
            && (SteadyStep(found, Next(c), s.trims[c].recipient) <==> NoneTaken(counted, steps, s.trims[c].recipient))
  {
    InvStep(s, Next(c));
    CountHoldsIffNoneTaken(Apply(s, Next(c)), steps, s.trims[c].recipient);
    StillThere(Apply(s, Next(c)), steps, c);
  }

  lemma {:induction false} StillThere(s: State, steps: seq<Step>, c: nat)
    requires Legal(s, steps) && Next(c) !in steps && c in s.trims
    ensures c in Final(s, steps).trims && Final(s, steps).trims[c] == s.trims[c]
    decreases steps
  {
    if steps != [] {
      StillThere(Apply(s, steps[0]), steps[1..], c);
    }
  }

  // ---- what is left -----------------------------------------------------------------------

  function Inserts(rows: Rows, steps: seq<Step>): Rows
    decreases steps
  {
    if steps == [] then rows
    else Inserts(if steps[0].Insert? then rows[steps[0].id := steps[0].note] else rows, steps[1..])
  }

  /** None of the recipient's own notifications is marked read. */
  predicate MarksElsewhere(s: State, steps: seq<Step>, recipient: string)
    requires Legal(s, steps)
    decreases steps
  {
    steps == [] || (
      && (steps[0].MarkRead? ==> steps[0].ids !! Mine(s.rows, recipient))
      && MarksElsewhere(Apply(s, steps[0]), steps[1..], recipient))
  }

  lemma MarkKeepsSurvivors(rows: Rows, ids: set<Id>, recipient: string)
    requires ids !! Mine(rows, recipient)
    ensures Survivors(Marked(rows, ids), recipient) == Survivors(rows, recipient)
  {
    assert Mine(Marked(rows, ids), recipient) == Mine(rows, recipient);
    LastOfLocal(rows, Marked(rows, ids), Mine(rows, recipient));
  }

  lemma {:induction false} SurvivorsKeptFrom(s: State, all: Rows, steps: seq<Step>, recipient: string)
    requires Inv(s) && Good(s, recipient) && Legal(s, steps)
    requires Steady(s, steps, recipient) && MarksElsewhere(s, steps, recipient)
    requires all.Keys <= s.used && Survivors(s.rows, recipient) == Survivors(all, recipient)
    ensures Survivors(Final(s, steps).rows, recipient) == Survivors(Inserts(all, steps), recipient)
    decreases steps
  {
    if steps != [] {
      var (t, step) := (Apply(s, steps[0]), steps[0]);
      InvStep(s, step);
      GoodStep(s, step, recipient);
      if step.Insert? {
        InsertSurvivors(s.rows, step.id, step.note, recipient);
        InsertSurvivors(all, step.id, step.note, recipient);
      } else if step.MarkRead? {
        MarkKeepsSurvivors(s.rows, step.ids, recipient);
      } else if step.Next? && s.trims[step.c].Deleting? {
        DeleteGood(s, step.c, recipient);
      }
      SurvivorsKeptFrom(t, if step.Insert? then all[step.id := step.note] else all, steps[1..], recipient);
    }
  }

  /** In a steady run no trim ever takes one of the last 1000 of all inserts. */
  lemma SteadyRunsKeepSurvivors(s: State, steps: seq<Step>, recipient: string)
    requires Initial(s) && Legal(s, steps) && Steady(s, steps, recipient) && MarksElsewhere(s, steps, recipient)
    ensures Survivors(Final(s, steps).rows, recipient) == Survivors(Inserts(s.rows, steps), recipient)
  {
    SurvivorsKeptFrom(s, s.rows, steps, recipient);
  }

  /** Of everything inserted, nothing of the recipient's is gone yet or at least 1000 are left. */
  ghost predicate Enough(s: State, all: Rows, recipient: string) {
    && all.Keys <= s.used && Mine(s.rows, recipient) <= Mine(all, recipient)
    && (Mine(s.rows, recipient) == Mine(all, recipient) || |Mine(s.rows, recipient)| >= MAX_PER_USER)
  }

  lemma EnoughStep(s: State, all: Rows, step: Step, recipient: string)
    requires Inv(s) && CapSafe(s, recipient) && Enabled(s, step) && Enough(s, all, recipient)
    ensures Enough(Apply(s, step), if step.Insert? then all[step.id := step.note] else all, recipient)
  {
    var t := Apply(s, step);
    if step.Insert? {
      MineInsert(s.rows, step.id, step.note, recipient);
      MineInsert(all, step.id, step.note, recipient);
      SubsetSize(Mine(s.rows, recipient), Mine(t.rows, recipient));
    } else if step.Next? && s.trims[step.c].Deleting? && s.trims[step.c].recipient == recipient {
      MineShrinks(s, step, recipient);
      SafeDeleteKeepsCap(s, step.c);
    } else {
      MineShrinks(s, step, recipient);
      OnlyDeletesTake(s, step, recipient);
      assert Mine(t.rows, recipient) == Mine(s.rows, recipient);
    }
  }

  lemma OnlyDeletesTake(s: State, step: Step, recipient: string)
    requires Inv(s) && Enabled(s, step)
    requires step.Next? && s.trims[step.c].Deleting? ==> s.trims[step.c].recipient != recipient
    ensures Mine(s.rows, recipient) <= Mine(Apply(s, step).rows, recipient)
  {
  }

  lemma {:induction false} EnoughRun(s: State, all: Rows, steps: seq<Step>, recipient: string)
    requires Inv(s) && Legal(s, steps) && Enough(s, all, recipient) && AlwaysCapSafe(s, steps, recipient)
    ensures Enough(Final(s, steps), Inserts(all, steps), recipient)
    decreases steps
  {
    if steps != [] {
      InvStep(s, steps[0]);
      EnoughStep(s, all, steps[0], recipient);
      EnoughRun(Apply(s, steps[0]), if steps[0].Insert? then all[steps[0].id := steps[0].note] else all, steps[1..], recipient);
    }
  }

  /** What is left over when trim `c` is through, as it stands now. */
  ghost predicate Clearing(s: State, c: nat) {
    c in s.trims &&
      var mine := Mine(s.rows, s.trims[c].recipient);
      match s.trims[c]
      case Counting(_) => true
      case Finding(_, limit) => limit > 0 && |mine| <= limit + MAX_PER_USER
      case Deleting(_, ids) => |mine - ids| <= MAX_PER_USER
      case Finished(_) => |mine| <= MAX_PER_USER
  }

  lemma OwnCallClears(rows: Rows, trimmer: Trimmer)
    requires var mine := Mine(rows, trimmer.recipient);
             && (trimmer.Finding? ==> trimmer.limit > 0 && |mine| <= trimmer.limit + MAX_PER_USER)
             && (trimmer.Deleting? ==> |mine - trimmer.ids| <= MAX_PER_USER)
             && !trimmer.Finished?
    ensures var (after, next) := Await(rows, trimmer);
            var mine := Mine(after, trimmer.recipient);
            && next.recipient == trimmer.recipient
            && (next.Finding? ==> next.limit > 0 && |mine| <= next.limit + MAX_PER_USER)
            && (next.Deleting? ==> |mine - next.ids| <= MAX_PER_USER)
            && (next.Finished? ==> |mine| <= MAX_PER_USER)
  {
    var mine := Mine(rows, trimmer.recipient);
    if trimmer.Finding? {
      FirstSize(rows, mine, trimmer.limit);
      LessSize(mine, First(rows, mine, trimmer.limit));
    } else if trimmer.Deleting? {
      assert Mine(rows - trimmer.ids, trimmer.recipient) == mine - trimmer.ids;
    }
  }

  lemma ClearingStep(s: State, step: Step, c: nat)
    requires Inv(s) && Clearing(s, c) && Enabled(s, step)
    requires step.Insert? ==> step.note.recipient != s.trims[c].recipient
    ensures Clearing(Apply(s, step), c) && Apply(s, step).trims[c].recipient == s.trims[c].recipient
  {
    if step == Next(c) {
      OwnCallClears(s.rows, s.trims[c]);
    } else {
      var (before, after) := (Mine(s.rows, s.trims[c].recipient), Mine(Apply(s, step).rows, s.trims[c].recipient));
      MineShrinks(s, step, s.trims[c].recipient);
      SubsetSize(after, before);
      if s.trims[c].Deleting? {
        SubsetSize(after - s.trims[c].ids, before - s.trims[c].ids);
      }
    }
  }

  /** However trims race, one that runs from its count to its delete with no insert leaves at most 1000. */
  lemma {:induction false} TrimClears(s: State, steps: seq<Step>, c: nat)
    requires Inv(s) && Clearing(s, c) && Legal(s, steps)
    requires forall i | 0 <= i < |steps| && steps[i].Insert? :: steps[i].note.recipient != s.trims[c].recipient
    ensures Clearing(Final(s, steps), c) && Final(s, steps).trims[c].recipient == s.trims[c].recipient
    ensures Final(s, steps).trims[c].Finished? ==>
              |Mine(Final(s, steps).rows, s.trims[c].recipient)| <= MAX_PER_USER
    decreases steps
  {
    if steps != [] {
      InvStep(s, steps[0]);
      ClearingStep(s, steps[0], c);
      TrimClears(Apply(s, steps[0]), steps[1..], c);
    }
  }

  lemma {:induction false} InvRun(s: State, steps: seq<Step>)
    requires Inv(s) && Legal(s, steps)
    ensures Inv(Final(s, steps))
    decreases steps
  {
    if steps != [] {
      InvStep(s, steps[0]);
      InvRun(Apply(s, steps[0]), steps[1..]);
    }
  }

  lemma {:induction false} Concat(s: State, before: seq<Step>, after: seq<Step>)
    requires Legal(s, before) && Legal(Final(s, before), after)
    ensures Legal(s, before + after) && Final(s, before + after) == Final(Final(s, before), after)
    decreases before
  {
    if before == [] {
      assert before + after == after;
    } else {
      Concat(Apply(s, before[0]), before[1..], after);
      assert (before + after)[1..] == before[1..] + after;
    }
  }

  /** Trim `c` counts after the last insert of its recipient, and is through when the run ends. */
  predicate TrimThrough(s: State, before: seq<Step>, after: seq<Step>, c: nat)
    requires Legal(s, before) && Legal(s, before + after)
  {
    && c in Final(s, before).trims && Final(s, before).trims[c].Counting?
    && c in Final(s, before + after).trims && Final(s, before + after).trims[c].Finished?
    && forall i | 0 <= i < |after| && after[i].Insert? :: after[i].note.recipient != Final(s, before).trims[c].recipient
  }

  lemma ThroughClears(s: State, before: seq<Step>, after: seq<Step>, c: nat)
    requires Initial(s) && Legal(s, before) && Legal(Final(s, before), after) && Legal(s, before + after)
    requires TrimThrough(s, before, after, c)
    ensures |Mine(Final(s, before + after).rows, Final(s, before).trims[c].recipient)| <= MAX_PER_USER
  {
    InvRun(s, before);
    Concat(s, before, after);
    TrimClears(Final(s, before), after, c);
  }

  /**
   * A trim's promise under interference, with marking read at any time: when every find fits, once a
   * trim that counts after the last insert of its recipient is through, min(count, 1000) of everything
   * inserted are left.
   */
  lemma FittingTrimSettles(s: State, before: seq<Step>, after: seq<Step>, c: nat)
    requires Initial(s) && Legal(s, before) && Legal(Final(s, before), after) && Legal(s, before + after)
    requires TrimThrough(s, before, after, c)
    requires FitsAll(s, before + after, Final(s, before).trims[c].recipient)
    ensures var r := Final(s, before).trims[c].recipient;
            |Mine(Final(s, before + after).rows, r)| == Capped(|Mine(Inserts(s.rows, before + after), r)|)
  {
    var r := Final(s, before).trims[c].recipient;
    ThroughClears(s, before, after, c);
    CapKeptIffFits(s, before + after, r);
    EnoughRun(s, s.rows, before + after, r);
    SubsetSize(Mine(Final(s, before + after).rows, r), Mine(Inserts(s.rows, before + after), r));
  }

  /** And when the recipient's own are not marked read meanwhile, they are the last ones of all inserts. */
  lemma SteadyTrimSettles(s: State, before: seq<Step>, after: seq<Step>, c: nat)
    requires Initial(s) && Legal(s, before) && Legal(Final(s, before), after) && Legal(s, before + after)
    requires TrimThrough(s, before, after, c)
    requires var r := Final(s, before).trims[c].recipient;
             Steady(s, before + after, r) && MarksElsewhere(s, before + after, r)
    ensures var r := Final(s, before).trims[c].recipient;
            var (left, all) := (Final(s, before + after).rows, Inserts(s.rows, before + after));
            && |Mine(left, r)| == Capped(|Mine(all, r)|)
            && Survivors(left, r) == Survivors(all, r) && Mine(left, r) == Kept(all, r)
  {
    var r := Final(s, before).trims[c].recipient;
    ThroughClears(s, before, after, c);
    SteadyRunsKeepSurvivors(s, before + after, r);
    var (left, all) := (Final(s, before + after).rows, Inserts(s.rows, before + after));
    FirstNothing(left, Mine(left, r), |Mine(left, r)| - MAX_PER_USER);
    assert Survivors(left, r).Keys == Kept(left, r) == Mine(left, r);
    assert Survivors(all, r).Keys == Kept(all, r);
    LastOfIsLast(all, Mine(all, r));
  }

  // ---- how it goes wrong ------------------------------------------------------------------

  lemma {:induction false} Extend(s: State, steps: seq<Step>, step: Step, recipient: string)
    requires Legal(s, steps) && Enabled(Final(s, steps), step)
    ensures Legal(s, steps + [step]) && Final(s, steps + [step]) == Apply(Final(s, steps), step)
    ensures Steady(s, steps + [step], recipient) <==>
            Steady(s, steps, recipient) && SteadyStep(Final(s, steps), step, recipient)
    decreases steps
  {
    if steps == [] {
      assert steps + [step] == [step];
      assert Legal(Apply(s, step), []);
    } else {
      Extend(Apply(s, steps[0]), steps[1..], step, recipient);
      assert (steps + [step])[1..] == steps[1..] + [step];
    }
  }

  lemma SelectedSize(rows: Rows, recipient: string, limit: int)
    ensures var (mine, ids) := (Mine(rows, recipient), First(rows, Mine(rows, recipient), limit));
            && Mine(rows - ids, recipient) == mine - ids
            && |mine - ids| == |mine| - (if limit <= 0 then 0 else if limit < |mine| then limit else |mine|)
  {
    var mine := Mine(rows, recipient);
    FirstSize(rows, mine, limit);
    LessSize(mine, First(rows, mine, limit));
  }

  /**
   * Both trims count before either deletes: from 1000 + k notifications the second takes another k
   * of the 1000 the first has left.
   */
  lemma RacingTrimsOverdelete(s: State, recipient: string, k: nat) returns (steps: seq<Step>)
    requires Initial(s) && 0 < k && |Mine(s.rows, recipient)| == MAX_PER_USER + k
    ensures Legal(s, steps)
    ensures |Mine(Final(s, steps).rows, recipient)| == if k < MAX_PER_USER then MAX_PER_USER - k else 0
    ensures !Steady(s, steps, recipient)
  {
    var ids := First(s.rows, Mine(s.rows, recipient), k);
    var rows := s.rows - ids;
    var again := First(rows, Mine(rows, recipient), k);
    SelectedSize(s.rows, recipient, k);
    SelectedSize(rows, recipient, k);
    steps := BothCount(s, recipient, k);
    steps := SelectAndDelete(s, steps, 1, recipient, k);
    assert !SteadyStep(Final(s, steps), Next(2), recipient);
    steps := SelectAndDelete(s, steps, 2, recipient, k);
    assert Final(s, steps).rows == rows - again;
  }

  lemma SelectAndDelete(s: State, steps: seq<Step>, c: nat, recipient: string, k: int) returns (more: seq<Step>)
    requires Legal(s, steps) && c in Final(s, steps).trims && Final(s, steps).trims[c] == Finding(recipient, k)
    ensures Legal(s, more)
    ensures var t := Final(s, steps);
            Final(s, more) == State(t.rows - First(t.rows, Mine(t.rows, recipient), k), t.used, t.trims[c := Finished(recipient)])
    ensures Steady(s, more, recipient) <==> Steady(s, steps, recipient) && SteadyStep(Final(s, steps), Next(c), recipient)
  {
    var t := Final(s, steps);
    Extend(s, steps, Next(c), recipient);
    var middle := steps + [Next(c)];
    assert Final(s, middle).trims[c] == Deleting(recipient, First(t.rows, Mine(t.rows, recipient), k));
    Extend(s, middle, Next(c), recipient);
    more := middle + [Next(c)];
    assert Final(s, more).trims == t.trims[c := Finished(recipient)];
  }

  lemma BothCount(s: State, recipient: string, k: nat) returns (steps: seq<Step>)
    requires Initial(s) && 0 < k && |Mine(s.rows, recipient)| == MAX_PER_USER + k
    ensures Legal(s, steps) && Steady(s, steps, recipient)
    ensures Final(s, steps) == s.(trims := map[1 := Finding(recipient, k), 2 := Finding(recipient, k)])
  {
    steps := [];
    Extend(s, steps, Start(1, recipient), recipient); steps := steps + [Start(1, recipient)];
    Extend(s, steps, Start(2, recipient), recipient); steps := steps + [Start(2, recipient)];
    Extend(s, steps, Next(1), recipient); steps := steps + [Next(1)];
    Extend(s, steps, Next(2), recipient); steps := steps + [Next(2)];
  }

  lemma FirstOne(rows: Rows, among: set<Id>, id: Id)
    requires among <= rows.Keys && id in among && Ahead(rows, among, id) == {}
    ensures First(rows, among, 1) == {id}
  {
    FirstPeels(rows, among, 1, id);
    FirstNothing(rows, among - {id}, 0);
  }

  /**
   * Marking apart is needed too: marking a notification read between two selections makes the second
   * trim select another one than the first, and both go although each found what it had counted.
   */
  lemma MarkingReadOverdeletes(s: State, recipient: string) returns (steps: seq<Step>)
    requires Initial(s) && |Mine(s.rows, recipient)| == MAX_PER_USER + 1
    requires forall id | id in Mine(s.rows, recipient) :: !s.rows[id].read
    ensures Legal(s, steps) && Steady(s, steps, recipient)
    ensures |Mine(Final(s, steps).rows, recipient)| == MAX_PER_USER - 1
  {
    var mine := Mine(s.rows, recipient);
    var a := EarliestExists(s.rows, mine);
    var b := Outside({a}, mine);
    var rows := Marked(s.rows, {b});
    FirstOne(s.rows, mine, a);
    assert Mine(rows, recipient) == mine && Ahead(rows, mine, b) == {};
    FirstOne(rows, mine, b);
    steps := BothSelect(s, recipient, a, b);
    var t := Final(s, steps);
    Extend(s, steps, Next(1), recipient); steps := steps + [Next(1)];
    assert Final(s, steps) == State(rows - {a}, s.used, t.trims[1 := Finished(recipient)]);
    Extend(s, steps, Next(2), recipient); steps := steps + [Next(2)];
    assert Final(s, steps).rows == rows - {a} - {b};
    BothGone(rows, recipient, mine, a, b);
  }

  lemma BothGone(rows: Rows, recipient: string, mine: set<Id>, a: Id, b: Id)
    requires mine == Mine(rows, recipient) && a in mine && b in mine && a != b
    ensures |Mine(rows - {a} - {b}, recipient)| == |mine| - 2
  {
    assert Mine(rows - {a} - {b}, recipient) == mine - {a, b};
    LessSize(mine, {a, b});
  }

  lemma BothSelect(s: State, recipient: string, a: Id, b: Id) returns (steps: seq<Step>)
    requires Initial(s) && |Mine(s.rows, recipient)| == MAX_PER_USER + 1
    requires First(s.rows, Mine(s.rows, recipient), 1) == {a}
    requires var rows := Marked(s.rows, {b});
             Mine(rows, recipient) == Mine(s.rows, recipient) && First(rows, Mine(rows, recipient), 1) == {b}
    ensures Legal(s, steps) && Steady(s, steps, recipient)
    ensures Final(s, steps)
         == State(Marked(s.rows, {b}), s.used, map[1 := Deleting(recipient, {a}), 2 := Deleting(recipient, {b})])
  {
    steps := BothCount(s, recipient, 1);
    Extend(s, steps, Next(1), recipient); steps := steps + [Next(1)];
    assert Final(s, steps) == s.(trims := map[1 := Deleting(recipient, {a}), 2 := Finding(recipient, 1)]);
    Extend(s, steps, MarkRead({b}), recipient); steps := steps + [MarkRead({b})];
    Extend(s, steps, Next(2), recipient); steps := steps + [Next(2)];
  }
}
