/**
 * The notification store: each recipient keeps at most 1000 notifications, the read and then the
 * oldest ones going first.  Large groups are inserted in one batch and trimmed later; the lemmas
 * show that this gives the same store as inserting and trimming one recipient at a time.
 */
module NotificationTrim {
  import opened Prelude

  /** Notification ids, numbered in the order the database compares them. */
  type Id = nat

  datatype Note = Note(recipient: string, read: bool, createdAt: int)

  type Rows = map<Id, Note>

  const MAX_PER_USER := 1000
  const OPTIMIZE_THRESHOLD := 50
  const BATCH_SIZE := 5

  // ---- which notifications go first -------------------------------------------------------

  /** ORDER BY read DESC, created_at ASC, id ASC. */
  predicate Before(rows: Rows, a: Id, b: Id)
    requires a in rows && b in rows
  {
    var x, y := rows[a], rows[b];
    if x.read != y.read then x.read
    else if x.createdAt != y.createdAt then x.createdAt < y.createdAt
    else a < b
  }

  function Mine(rows: Rows, recipient: string): set<Id> {
    set id | id in rows && rows[id].recipient == recipient
  }

  function Ahead(rows: Rows, among: set<Id>, id: Id): set<Id>
    requires among <= rows.Keys && id in rows
  {
    set other | other in among && Before(rows, other, id)
  }

  /** The first `k` of a set of notifications: those with fewer than `k` ahead of them. */
  function First(rows: Rows, among: set<Id>, k: int): set<Id>
    requires among <= rows.Keys
  {
    set id | id in among && |Ahead(rows, among, id)| < k
  }

  lemma {:induction false} EarliestExists(rows: Rows, among: set<Id>) returns (earliest: Id)
    requires among <= rows.Keys && among != {}
    ensures earliest in among && Ahead(rows, among, earliest) == {}
  {
    earliest :| earliest in among;
    var rest := among - {earliest};
    while rest != {}
      invariant earliest in among && rest <= among
      invariant forall id | id in among && id !in rest :: !Before(rows, id, earliest)
      decreases rest
    {
      var id :| id in rest;
      rest := rest - {id};
      if Before(rows, id, earliest) {
        earliest := id;
      }
    }
  }

  /** Taking the earliest one out shifts everybody else forward by one. */
  lemma FirstPeels(rows: Rows, among: set<Id>, k: int, earliest: Id)
    requires among <= rows.Keys && earliest in among && Ahead(rows, among, earliest) == {} && 0 < k
    ensures First(rows, among, k) == {earliest} + First(rows, among - {earliest}, k - 1)
  {
    var rest := among - {earliest};
    forall id | id in rest ensures |Ahead(rows, among, id)| == |Ahead(rows, rest, id)| + 1 {
      assert id !in Ahead(rows, among, earliest);
      assert Before(rows, earliest, id);
      assert Ahead(rows, among, id) == Ahead(rows, rest, id) + {earliest};
    }
  }

  lemma FirstNothing(rows: Rows, among: set<Id>, k: int)
    requires among <= rows.Keys && (k <= 0 || among == {})
    ensures First(rows, among, k) == {}
  {
  }

  lemma OneMore(whole: set<Id>, part: set<Id>, id: Id)
    requires id !in part && whole == {id} + part
    ensures |whole| == |part| + 1
  {
  }

  lemma FirstStep(rows: Rows, among: set<Id>, k: int) returns (rest: set<Id>)
    requires among <= rows.Keys && 0 < k && among != {}
    ensures rest <= rows.Keys && |among| == |rest| + 1
    ensures |First(rows, among, k)| == |First(rows, rest, k - 1)| + 1
  {
    var earliest := EarliestExists(rows, among);
    rest := among - {earliest};
    FirstPeels(rows, among, k, earliest);
    OneMore(among, rest, earliest);
    OneMore(First(rows, among, k), First(rows, rest, k - 1), earliest);
  }

  lemma {:induction false} FirstSize(rows: Rows, among: set<Id>, k: int)
    requires among <= rows.Keys
    ensures |First(rows, among, k)| == if k <= 0 then 0 else if k < |among| then k else |among|
    decreases |among|
  {
    if k <= 0 || among == {} {
      FirstNothing(rows, among, k);
    } else {
      var rest := FirstStep(rows, among, k);
      FirstSize(rows, rest, k - 1);
    }
  }

  // ---- trimming ---------------------------------------------------------------------------

  function Victims(rows: Rows, recipient: string): set<Id> {
    First(rows, Mine(rows, recipient), |Mine(rows, recipient)| - MAX_PER_USER)
  }

  function Trim(rows: Rows, recipient: string): Rows {
    rows - Victims(rows, recipient)
  }

  /** A trim leaves min(count, 1000) of the recipient's notifications and everybody else's alone. */
  lemma TrimCounts(rows: Rows, recipient: string, other: string)
    ensures |Mine(Trim(rows, recipient), recipient)|
            == if |Mine(rows, recipient)| < 1000 then |Mine(rows, recipient)| else 1000
    ensures other != recipient ==> Mine(Trim(rows, recipient), other) == Mine(rows, other)
  {
    var mine := Mine(rows, recipient);
    FirstSize(rows, mine, |mine| - MAX_PER_USER);
    TrimmedAway(rows, recipient, other);
    LessSize(mine, Victims(rows, recipient));
  }

  lemma TrimmedAway(rows: Rows, recipient: string, other: string)
    ensures Victims(rows, recipient) <= Mine(rows, recipient)
    ensures Mine(Trim(rows, recipient), recipient) == Mine(rows, recipient) - Victims(rows, recipient)
    ensures other != recipient ==> Mine(Trim(rows, recipient), other) == Mine(rows, other)
  {
  }

  lemma LessSize(whole: set<Id>, part: set<Id>)
    requires part <= whole
    ensures |whole - part| == |whole| - |part|
  {
  }

  /** What goes before what stays: read ones first, then older ones, then those with smaller ids. */
  ghost predicate GoFirst(rows: Rows, gone: set<Id>, kept: set<Id>) {
    gone <= rows.Keys && kept <= rows.Keys &&
    forall a, b | a in gone && b in kept ::
      && (rows[b].read ==> rows[a].read)
      && (rows[a].read == rows[b].read ==> rows[a].createdAt <= rows[b].createdAt)
      && (rows[a].read == rows[b].read && rows[a].createdAt == rows[b].createdAt ==> a < b)
  }

  lemma FirstGoFirst(rows: Rows, among: set<Id>, k: int)
    requires among <= rows.Keys
    ensures GoFirst(rows, First(rows, among, k), among - First(rows, among, k))
  {
    forall a, b | a in First(rows, among, k) && b in among - First(rows, among, k) ensures Before(rows, a, b) {
      if Before(rows, b, a) {
        SubsetSize(Ahead(rows, among, b), Ahead(rows, among, a));
      }
    }
  }

  /** Everything trimmed is read before anything kept is, or older, or of a smaller id. */
  lemma TrimTakesTheFirst(rows: Rows, recipient: string)
    ensures Victims(rows, recipient) <= Mine(rows, recipient)
    ensures GoFirst(rows, Victims(rows, recipient), Mine(rows, recipient) - Victims(rows, recipient))
  {
    FirstGoFirst(rows, Mine(rows, recipient), |Mine(rows, recipient)| - MAX_PER_USER);
  }

  /** The newest notification is among those a trim keeps. */
  lemma NewestStays(rows: Rows, recipient: string, id: Id)
    requires id in rows && rows[id].recipient == recipient && !rows[id].read
    requires forall other | other in rows && rows[other].recipient == recipient && other != id ::
               rows[other].createdAt <= rows[id].createdAt && other < id
    ensures id in Trim(rows, recipient)
  {
    var mine := Mine(rows, recipient);
    assert Ahead(rows, mine, id) == mine - {id};
    OneMore(mine, mine - {id}, id);
  }

  /** Victims depend on the recipient's own notifications only. */
  lemma VictimsLocal(rows: Rows, other: Rows, recipient: string)
    requires Mine(other, recipient) == Mine(rows, recipient)
    requires forall id | id in Mine(rows, recipient) :: other[id] == rows[id]
    ensures Victims(other, recipient) == Victims(rows, recipient)
  {
    var mine := Mine(rows, recipient);
    forall id | id in mine ensures Ahead(other, mine, id) == Ahead(rows, mine, id) {
    }
  }

  /** Everything that goes when all of `recipients` are trimmed, as one set. */
  function Trimmed(rows: Rows, recipients: set<string>): Rows {
    rows - set id | id in rows && rows[id].recipient in recipients && id in Victims(rows, rows[id].recipient)
  }

  lemma TrimmedMine(rows: Rows, recipients: set<string>, recipient: string)
    ensures recipient !in recipients ==> Mine(Trimmed(rows, recipients), recipient) == Mine(rows, recipient)
    ensures recipient in recipients ==>
              Mine(Trimmed(rows, recipients), recipient) == Mine(Trim(rows, recipient), recipient)
  {
  }

  lemma TrimMore(rows: Rows, recipients: set<string>, recipient: string)
    ensures Trim(Trimmed(rows, recipients), recipient) == Trimmed(rows, recipients + {recipient})
  {
    var before := Trimmed(rows, recipients);
    TrimmedMine(rows, recipients, recipient);
    if recipient in recipients {
      TrimCounts(rows, recipient, recipient);
      FirstSize(before, Mine(before, recipient), |Mine(before, recipient)| - MAX_PER_USER);
      assert Victims(before, recipient) == {};
      assert recipients + {recipient} == recipients;
    } else {
      VictimsLocal(rows, before, recipient);
    }
  }

  // ---- batches ----------------------------------------------------------------------------

  datatype Entity = Entity(id: Id, note: Note)

  function InsertAll(rows: Rows, entities: seq<Entity>): Rows {
    if entities == [] then rows
    else
      var last := entities[|entities| - 1];
      InsertAll(rows, entities[..|entities| - 1])[last.id := last.note]
  }

  function TrimAll(rows: Rows, recipients: seq<string>): Rows {
    if recipients == [] then rows
    else Trim(TrimAll(rows, recipients[..|recipients| - 1]), recipients[|recipients| - 1])
  }

  function OneByOne(rows: Rows, entities: seq<Entity>): Rows {
    if entities == [] then rows
    else
      var last := entities[|entities| - 1];
      Trim(OneByOne(rows, entities[..|entities| - 1])[last.id := last.note], last.note.recipient)
  }

  function Recipients(entities: seq<Entity>): set<string> {
    set i | 0 <= i < |entities| :: entities[i].note.recipient
  }

  /** One notification per recipient, with ids not in use. */
  predicate Batch(rows: Rows, entities: seq<Entity>) {
    && (forall i | 0 <= i < |entities| :: entities[i].id !in rows)
    && (forall i, j | 0 <= i < j < |entities| ::
          entities[i].id != entities[j].id && entities[i].note.recipient != entities[j].note.recipient)
  }

  lemma {:induction false} TrimAllIsTrimmed(rows: Rows, recipients: seq<string>)
    ensures TrimAll(rows, recipients) == Trimmed(rows, set r | r in recipients)
  {
    if recipients == [] {
      assert Trimmed(rows, {}) == rows;
      assert (set r | r in recipients) == {};
    } else {
      var front, last := recipients[..|recipients| - 1], recipients[|recipients| - 1];
      TrimAllIsTrimmed(rows, front);
      TrimMore(rows, (set r | r in front), last);
      assert (set r | r in recipients) == (set r | r in front) + {last};
    }
  }

  lemma {:induction false} InsertAllKeys(rows: Rows, entities: seq<Entity>)
    ensures InsertAll(rows, entities).Keys == rows.Keys + set i | 0 <= i < |entities| :: entities[i].id
  {
    if entities != [] {
      var front, last := entities[..|entities| - 1], entities[|entities| - 1];
      InsertAllKeys(rows, front);
      assert (set i | 0 <= i < |entities| :: entities[i].id) == (set i | 0 <= i < |front| :: front[i].id) + {last.id} by {
        assert entities == front + [last];
        assert forall i | 0 <= i < |front| :: front[i].id == entities[i].id;
      }
    }
  }

  /** Inserting for one recipient commutes with trimming others. */
  lemma InsertPastTrimmed(rows: Rows, recipients: set<string>, entity: Entity)
    requires entity.id !in rows && entity.note.recipient !in recipients
    ensures Trimmed(rows, recipients)[entity.id := entity.note] == Trimmed(rows[entity.id := entity.note], recipients)
  {
    var after := rows[entity.id := entity.note];
    forall r | r in recipients ensures Victims(after, r) == Victims(rows, r) {
      assert Mine(after, r) == Mine(rows, r);
      VictimsLocal(rows, after, r);
    }
    assert forall id | id in rows && rows[id].recipient in recipients ::
        id in Victims(after, rows[id].recipient) <==> id in Victims(rows, rows[id].recipient);
  }

  lemma FrontOf(rows: Rows, entities: seq<Entity>)
    requires Batch(rows, entities) && entities != []
    ensures var front, last := entities[..|entities| - 1], entities[|entities| - 1];
            && Batch(rows, front)
            && last.id !in InsertAll(rows, front) && last.note.recipient !in Recipients(front)
            && Recipients(entities) == Recipients(front) + {last.note.recipient}
  {
    var front, last := entities[..|entities| - 1], entities[|entities| - 1];
    InsertAllKeys(rows, front);
    assert entities == front + [last];
    assert forall i | 0 <= i < |front| :: front[i] == entities[i];
  }

  lemma {:induction false} OneByOneIsTrimmed(rows: Rows, entities: seq<Entity>)
    requires Batch(rows, entities)
    ensures OneByOne(rows, entities) == Trimmed(InsertAll(rows, entities), Recipients(entities))
  {
    if entities == [] {
      assert Trimmed(rows, {}) == rows && Recipients(entities) == {};
    } else {
      var front, last := entities[..|entities| - 1], entities[|entities| - 1];
      FrontOf(rows, entities);
      OneByOneIsTrimmed(rows, front);
      InsertPastTrimmed(InsertAll(rows, front), Recipients(front), last);
      TrimMore(InsertAll(rows, entities), Recipients(front), last.note.recipient);
    }
  }

  /**
   * The batch path refines the one-by-one path: insert everything, then trim the recipients later
   * in any order, even repeatedly, and the store is the same.
   */
  lemma BatchRefinesOneByOne(rows: Rows, entities: seq<Entity>, order: seq<string>)
    requires Batch(rows, entities) && (set r | r in order) == Recipients(entities)
    ensures TrimAll(InsertAll(rows, entities), order) == OneByOne(rows, entities)
  {
    TrimAllIsTrimmed(InsertAll(rows, entities), order);
    OneByOneIsTrimmed(rows, entities);
  }

  // ---- what survives any interleaving -----------------------------------------------------

  /** The last 1000 of a set of notifications in the trim order. */
  function LastOf(rows: Rows, among: set<Id>): set<Id>
    requires among <= rows.Keys
  {
    among - First(rows, among, |among| - MAX_PER_USER)
  }

  function Kept(rows: Rows, recipient: string): set<Id> {
    LastOf(rows, Mine(rows, recipient))
  }

  function Only(rows: Rows, ids: set<Id>): Rows
    requires ids <= rows.Keys
  {
    map id | id in ids :: rows[id]
  }

  /** A recipient's notifications that a trim would keep: the last 1000 in the trim order. */
  function Survivors(rows: Rows, recipient: string): Rows {
    Only(rows, Kept(rows, recipient))
  }

  function Capped(count: nat): nat {
    if count < MAX_PER_USER then count else MAX_PER_USER
  }

  /** Everything in `part` goes after everything else in `among`. */
  ghost predicate Last(rows: Rows, among: set<Id>, part: set<Id>)
    requires among <= rows.Keys
  {
    part <= among && forall x, y | x in part && y in among - part :: Before(rows, y, x)
  }

  lemma LastUnique(rows: Rows, among: set<Id>, a: set<Id>, b: set<Id>)
    requires among <= rows.Keys && Last(rows, among, a) && Last(rows, among, b) && |a| == |b|
    ensures a == b
  {
    if a <= b {
      LessSize(b, a);
      assert b == a + (b - a);
    } else {
      var x :| x in a && x !in b;
      assert x in among - b;
      forall y | y in b ensures y in a {
        assert y in a || y in among - a;
      }
      assert b <= a;
      LessSize(a, b);
    }
  }

  lemma LastOfIsLast(rows: Rows, among: set<Id>)
    requires among <= rows.Keys
    ensures Last(rows, among, LastOf(rows, among)) && |LastOf(rows, among)| == Capped(|among|)
  {
    var first := First(rows, among, |among| - MAX_PER_USER);
    forall x, y | x in LastOf(rows, among) && y in first ensures Before(rows, y, x) {
      if Before(rows, x, y) {
        SubsetSize(Ahead(rows, among, x), Ahead(rows, among, y));
      }
    }
    FirstSize(rows, among, |among| - MAX_PER_USER);
    LessSize(among, first);
  }

  lemma LastOfIs(rows: Rows, among: set<Id>, part: set<Id>)
    requires among <= rows.Keys && Last(rows, among, part) && |part| == Capped(|among|)
    ensures LastOf(rows, among) == part
  {
    LastOfIsLast(rows, among);
    LastUnique(rows, among, LastOf(rows, among), part);
  }

  lemma LastOfLocal(rows: Rows, other: Rows, among: set<Id>)
    requires among <= rows.Keys && among <= other.Keys
    requires forall id | id in among :: rows[id] == other[id]
    ensures LastOf(rows, among) == LastOf(other, among)
  {
    forall id | id in among ensures Ahead(other, among, id) == Ahead(rows, among, id) {
    }
  }

  /** Taking away only what is not among the last changes nothing about the last. */
  lemma LastOfLess(rows: Rows, among: set<Id>, gone: set<Id>)
    requires among <= rows.Keys && gone !! LastOf(rows, among)
    ensures LastOf(rows, among - gone) == LastOf(rows, among)
  {
    var last := LastOf(rows, among);
    LastOfIsLast(rows, among);
    SubsetSize(last, among - gone);
    SubsetSize(among - gone, among);
    if |among| <= MAX_PER_USER {
      FirstNothing(rows, among, |among| - MAX_PER_USER);
      assert among - gone == among;
    }
    LastOfIs(rows, among - gone, last);
  }

  /** What drops out of the last ones goes before the newcomer too. */
  lemma DroppedBefore(rows: Rows, among: set<Id>, last: set<Id>, part: set<Id>, id: Id, x: Id, y: Id)
    requires among <= rows.Keys && id in rows && id !in among
    requires Last(rows, among, last) && Last(rows, last + {id}, part)
    requires |last| == Capped(|among|) && |part| == Capped(|last| + 1)
    requires x in part && y in among + {id} - part
    ensures Before(rows, y, x)
  {
    if y !in last + {id} && x == id {
      SubsetSize(last, among - {y});
      OneMore(among, among - {y}, y);
      OneMore(last + {id}, last, id);
      var w := Outside(part, last + {id});
      assert Before(rows, w, x) && Before(rows, y, w);
    }
  }

  /** With one more, the last ones are the last of the former last ones and the new one. */
  lemma LastOfMore(rows: Rows, among: set<Id>, id: Id)
    requires among <= rows.Keys && id in rows && id !in among
    ensures LastOf(rows, among + {id}) == LastOf(rows, LastOf(rows, among) + {id})
  {
    var last := LastOf(rows, among);
    LastOfIsLast(rows, among);
    LastOfIsLast(rows, last + {id});
    LastOfBoth(rows, among, last, LastOf(rows, last + {id}), id);
  }

  lemma LastOfBoth(rows: Rows, among: set<Id>, last: set<Id>, part: set<Id>, id: Id)
    requires among <= rows.Keys && id in rows && id !in among
    requires Last(rows, among, last) && Last(rows, last + {id}, part)
    requires |last| == Capped(|among|) && |part| == Capped(|last + {id}|)
    ensures LastOf(rows, among + {id}) == part
  {
    OneMore(among + {id}, among, id);
    OneMore(last + {id}, last, id);
    forall x, y | x in part && y in among + {id} - part ensures Before(rows, y, x) {
      DroppedBefore(rows, among, last, part, id, x, y);
    }
    LastOfIs(rows, among + {id}, part);
  }

  /** Deleting only what a trim would delete leaves what it would keep as it is. */
  lemma DeletingVictims(rows: Rows, gone: set<Id>, recipient: string)
    requires gone !! Kept(rows, recipient)
    ensures Survivors(rows - gone, recipient) == Survivors(rows, recipient)
  {
    var mine := Mine(rows, recipient);
    assert Mine(rows - gone, recipient) == mine - gone;
    LastOfLess(rows, mine, gone);
    LastOfLocal(rows, rows - gone, mine - gone);
  }

  lemma MineInsert(rows: Rows, id: Id, note: Note, recipient: string)
    requires id !in rows
    ensures Mine(rows[id := note], recipient)
         == Mine(rows, recipient) + Added(id, note, recipient)
  {
  }

  lemma MineOnly(rows: Rows, ids: set<Id>, recipient: string)
    requires ids <= Mine(rows, recipient)
    ensures Mine(Only(rows, ids), recipient) == ids
  {
  }

  function Added(id: Id, note: Note, recipient: string): set<Id> {
    if note.recipient == recipient then {id} else {}
  }

  /** What a trim keeps after an insert depends only on what it kept before. */
  lemma InsertSurvivors(rows: Rows, id: Id, note: Note, recipient: string)
    requires id !in rows
    ensures Survivors(rows[id := note], recipient) == Survivors(Survivors(rows, recipient)[id := note], recipient)
  {
    SurvivorsAlike(rows, id, note, recipient);
    var (after, small) := (rows[id := note], Survivors(rows, recipient)[id := note]);
    assert forall k | k in Kept(after, recipient) :: k in small && small[k] == after[k];
  }

  lemma SurvivorsAlike(rows: Rows, id: Id, note: Note, recipient: string)
    requires id !in rows
    ensures Kept(rows[id := note], recipient) == Kept(Survivors(rows, recipient)[id := note], recipient)
  {
    var kept := Kept(rows, recipient);
    var small := Only(rows, kept)[id := note];
    OnlyInsert(rows, kept, id, note, recipient);
    MineInsert(rows, id, note, recipient);
    InsertKept(rows, rows[id := note], Mine(rows, recipient), Added(id, note, recipient), id);
    LastOfLocal(small, rows[id := note], Mine(small, recipient));
  }

  lemma OnlyInsert(rows: Rows, ids: set<Id>, id: Id, note: Note, recipient: string)
    requires id !in rows && ids <= Mine(rows, recipient)
    ensures var small := Only(rows, ids)[id := note];
            && Mine(small, recipient) == ids + Added(id, note, recipient)
            && forall k | k in small :: small[k] == rows[id := note][k]
  {
    MineOnly(rows, ids, recipient);
    MineInsert(Only(rows, ids), id, note, recipient);
  }

  lemma KeptAfterInsert(rows: Rows, id: Id, note: Note, recipient: string)
    requires id !in rows
    ensures Kept(rows[id := note], recipient) <= Kept(rows, recipient) + {id}
  {
    MineInsert(rows, id, note, recipient);
    InsertKept(rows, rows[id := note], Mine(rows, recipient), Added(id, note, recipient), id);
  }

  lemma InsertKept(rows: Rows, after: Rows, mine: set<Id>, added: set<Id>, id: Id)
    requires mine <= rows.Keys && id in after && id !in rows && added in {{}, {id}}
    requires forall k | k in mine :: k in after && after[k] == rows[k]
    ensures LastOf(after, mine + added) == LastOf(after, LastOf(rows, mine) + added)
  {
    LastOfLocal(rows, after, mine);
    LastOfInsert(after, mine, added, id);
  }

  lemma LastOfInsert(rows: Rows, among: set<Id>, added: set<Id>, id: Id)
    requires among <= rows.Keys && id in rows && id !in among && added in {{}, {id}}
    ensures LastOf(rows, among + added) == LastOf(rows, LastOf(rows, among) + added)
  {
    if added == {} {
      LastOfLast(rows, among);
      assert among + added == among && LastOf(rows, among) + added == LastOf(rows, among);
    } else {
      LastOfMore(rows, among, id);
    }
  }

  lemma LastOfLast(rows: Rows, among: set<Id>)
    requires among <= rows.Keys
    ensures LastOf(rows, LastOf(rows, among)) == LastOf(rows, among)
  {
    var last := LastOf(rows, among);
    LastOfIsLast(rows, among);
    FirstNothing(rows, last, |last| - MAX_PER_USER);
  }

  /** A trim absorbs an earlier one: trimming before the insert as well changes nothing. */
  lemma TrimAbsorbs(rows: Rows, id: Id, note: Note)
    requires id !in rows
    ensures Trim(Trim(rows, note.recipient)[id := note], note.recipient) == Trim(rows[id := note], note.recipient)
  {
    var r := note.recipient;
    var (one, two) := (Trim(rows, r)[id := note], rows[id := note]);
    DeletingVictims(rows, Victims(rows, r), r);
    InsertSurvivors(Trim(rows, r), id, note, r);
    InsertSurvivors(rows, id, note, r);
    SameSurvivors(one, two, r);
  }

  /** Stores that agree on a recipient's survivors and on everybody else are the same once trimmed. */
  lemma SameSurvivors(one: Rows, two: Rows, recipient: string)
    requires Survivors(one, recipient) == Survivors(two, recipient)
    requires forall id | id in one && one[id].recipient != recipient :: id in two && two[id] == one[id]
    requires forall id | id in two && two[id].recipient != recipient :: id in one && one[id] == two[id]
    ensures Trim(one, recipient) == Trim(two, recipient)
  {
    forall id ensures id in Trim(one, recipient) <==> id in Trim(two, recipient) {
      assert id in Survivors(one, recipient) <==> id in Survivors(two, recipient);
    }
    forall id | id in Trim(one, recipient) ensures one[id] == two[id] {
      if one[id].recipient == recipient {
        assert id in Survivors(one, recipient) && Survivors(one, recipient)[id] == Survivors(two, recipient)[id];
      }
    }
  }

  /** Inserts and trims in any order. */
  datatype Op = Add(entity: Entity) | Cut(recipient: string)

  function Play(rows: Rows, ops: seq<Op>): Rows {
    if ops == [] then rows
    else
      match ops[|ops| - 1]
      case Add(entity) => Play(rows, ops[..|ops| - 1])[entity.id := entity.note]
      case Cut(recipient) => Trim(Play(rows, ops[..|ops| - 1]), recipient)
  }

  /** The same inserts with no trim at all. */
  function Untrimmed(rows: Rows, ops: seq<Op>): Rows {
    if ops == [] then rows
    else
      match ops[|ops| - 1]
      case Add(entity) => Untrimmed(rows, ops[..|ops| - 1])[entity.id := entity.note]
      case Cut(_) => Untrimmed(rows, ops[..|ops| - 1])
  }

  predicate FreshIds(rows: Rows, ops: seq<Op>) {
    ops == [] || (
      var front, last := ops[..|ops| - 1], ops[|ops| - 1];
      FreshIds(rows, front) && (last.Add? ==> last.entity.id !in Untrimmed(rows, front))
    )
  }

  /** Whatever trims are mixed in, everybody's survivors are those of all inserts. */
  lemma {:induction false} TrimsSpareSurvivors(rows: Rows, ops: seq<Op>, recipient: string)
    requires FreshIds(rows, ops)
    ensures Survivors(Play(rows, ops), recipient) == Survivors(Untrimmed(rows, ops), recipient)
    ensures Play(rows, ops).Keys <= Untrimmed(rows, ops).Keys
    ensures Cut(recipient) !in ops ==>
              forall id | id in Untrimmed(rows, ops) && Untrimmed(rows, ops)[id].recipient == recipient ::
                id in Play(rows, ops)
    ensures forall id | id in Play(rows, ops) :: Play(rows, ops)[id] == Untrimmed(rows, ops)[id]
  {
    if ops != [] {
      var front, last := ops[..|ops| - 1], ops[|ops| - 1];
      assert ops == front + [last];
      TrimsSpareSurvivors(rows, front, recipient);
      match last
      case Add(entity) =>
        InsertSurvivors(Play(rows, front), entity.id, entity.note, recipient);
        InsertSurvivors(Untrimmed(rows, front), entity.id, entity.note, recipient);
      case Cut(other) =>
        var before := Play(rows, front);
        assert Victims(before, other) !! Kept(before, recipient);
        DeletingVictims(before, Victims(before, other), recipient);
    }
  }

  /**
   * Any interleaving of inserts and trims, then trims of every recipient that was trimmed before,
   * in any order, leaves what all inserts followed by one trim each leave.
   */
  lemma InterleavedTrims(rows: Rows, ops: seq<Op>, order: seq<string>)
    requires FreshIds(rows, ops)
    requires forall r | Cut(r) in ops :: r in order
    ensures TrimAll(Play(rows, ops), order) == TrimAll(Untrimmed(rows, ops), order)
         == Trimmed(Untrimmed(rows, ops), set r | r in order)
  {
    var (some, all) := (Play(rows, ops), Untrimmed(rows, ops));
    var recipients := set r | r in order;
    TrimAllIsTrimmed(some, order);
    TrimAllIsTrimmed(all, order);
    TrimsSpareSurvivors(rows, ops, "");
    forall id ensures id in Trimmed(some, recipients) <==> id in Trimmed(all, recipients) {
      if id in all {
        var r := all[id].recipient;
        TrimsSpareSurvivors(rows, ops, r);
        assert id in Survivors(some, r) <==> id in Survivors(all, r);
      }
    }
    assert Trimmed(some, recipients) == Trimmed(all, recipients);
  }

  // ---- one trim, await by await -----------------------------------------------------------

  datatype Trimmer =
    | Counting(recipient: string)
    | Finding(recipient: string, limit: int)
    | Deleting(recipient: string, ids: set<Id>)
    | Finished(recipient: string)

  /** The next repository call of a trim: the store after it, and what the trim waits for then. */
  function Await(rows: Rows, trimmer: Trimmer): (Rows, Trimmer) {
    match trimmer
    case Counting(recipient) =>
      var limit := |Mine(rows, recipient)| - MAX_PER_USER;
      (rows, if limit <= 0 then Finished(recipient) else Finding(recipient, limit))
    case Finding(recipient, limit) => (rows, Deleting(recipient, First(rows, Mine(rows, recipient), limit)))
    case Deleting(recipient, ids) => (rows - ids, Finished(recipient))
    case Finished(_) => (rows, trimmer)
  }

  function Stage(trimmer: Trimmer): nat {
    match trimmer
    case Counting(_) => 3
    case Finding(_, _) => 2
    case Deleting(_, _) => 1
    case Finished(_) => 0
  }

  function Stages(trims: seq<Trimmer>): nat {
    if trims == [] then 0 else Stages(trims[..|trims| - 1]) + Stage(trims[|trims| - 1])
  }

  lemma {:induction false} StagesFall(trims: seq<Trimmer>, i: nat, next: Trimmer)
    requires i < |trims| && Stage(next) < Stage(trims[i])
    ensures Stages(trims[i := next]) < Stages(trims)
  {
    var front := trims[..|trims| - 1];
    if i < |front| {
      StagesFall(front, i, next);
      assert trims[i := next][..|trims| - 1] == front[i := next];
    } else {
      assert trims[i := next][..|trims| - 1] == front;
    }
  }

  /** What a trim that started on `rows` knows, as long as only others' notifications changed. */
  predicate OnTrack(rows: Rows, trimmer: Trimmer) {
    match trimmer
    case Counting(_) => true
    case Finding(recipient, limit) => limit == |Mine(rows, recipient)| - MAX_PER_USER && limit > 0
    case Deleting(recipient, ids) => ids == Victims(rows, recipient)
    case Finished(_) => true
  }

  /** With `done` trimmed already, one more call of another recipient's trim stays on track. */
  lemma AwaitOnTrack(rows: Rows, done: set<string>, trimmer: Trimmer)
    requires OnTrack(rows, trimmer) && !trimmer.Finished? && trimmer.recipient !in done
    ensures var (after, next) := Await(Trimmed(rows, done), trimmer);
            && next.recipient == trimmer.recipient && OnTrack(rows, next) && Stage(next) < Stage(trimmer)
            && after == if next.Finished? then Trimmed(rows, done + {trimmer.recipient}) else Trimmed(rows, done)
  {
    var (before, r) := (Trimmed(rows, done), trimmer.recipient);
    TrimmedMine(rows, done, r);
    TrimMore(rows, done, r);
    VictimsLocal(rows, before, r);
    if trimmer.Counting? {
      FirstNothing(rows, Mine(rows, r), if |Mine(rows, r)| <= MAX_PER_USER then |Mine(rows, r)| - MAX_PER_USER else 0);
    }
  }

  lemma {:induction false} TrimAllMore(rows: Rows, some: seq<string>, more: seq<string>)
    ensures TrimAll(TrimAll(rows, some), more) == TrimAll(rows, some + more)
  {
    if more == [] {
      assert some + more == some;
    } else {
      TrimAllMore(rows, some, more[..|more| - 1]);
      assert (some + more)[..|some + more| - 1] == some + more[..|more| - 1];
    }
  }

  // ---- the repository and the service -----------------------------------------------------

  class NotificationRepository {
    var rows: Rows

    constructor ()
      ensures rows == map[]
    {
      rows := map[];
    }

    method CountForRecipient(recipient: string) returns (count: nat)
      ensures count == |Mine(rows, recipient)|
    {
      count := |Mine(rows, recipient)|;
    }

    /** Repeatedly picks the earliest notification not picked yet, up to the limit. */
    method FindOldestForTrim(recipient: string, limit: int) returns (ids: set<Id>)
      ensures ids == First(rows, Mine(rows, recipient), limit)
      ensures GoFirst(rows, ids, Mine(rows, recipient) - ids)
    {
      FirstGoFirst(rows, Mine(rows, recipient), limit);
      ids := {};
      var rest := Mine(rows, recipient);
      ghost var mine := rest;
      var left := limit;
      while rest != {} && left > 0
        invariant rest <= mine && mine <= rows.Keys
        invariant limit <= 0 || left >= 0
        invariant ids + First(rows, rest, left) == First(rows, mine, limit)
        decreases rest
      {
        ghost var _ := EarliestExists(rows, rest);
        var earliest :| earliest in rest && Ahead(rows, rest, earliest) == {};
        FirstPeels(rows, rest, left, earliest);
        ids := ids + {earliest};
        rest := rest - {earliest};
        left := left - 1;
      }
      FirstSize(rows, rest, left);
      assert First(rows, rest, left) == {};
    }

    method DeleteByIds(ids: set<Id>)
      modifies this
      ensures rows == old(rows) - ids
    {
      rows := rows - ids;
    }

    method Create(entity: Entity)
      modifies this
      ensures rows == old(rows)[entity.id := entity.note]
    {
      rows := rows[entity.id := entity.note];
    }

    method CreateMany(entities: seq<Entity>)
      modifies this
      ensures rows == InsertAll(old(rows), entities)
    {
      for i := 0 to |entities|
        invariant rows == InsertAll(old(rows), entities[..i])
      {
        assert entities[..i + 1][..i] == entities[..i];
        rows := rows[entities[i].id := entities[i].note];
      }
      assert entities[..|entities|] == entities;
    }
  }

  /** Keeps the first occurrence of every recipient but the sender. */
  function Relevant(recipients: seq<string>, sender: string): seq<string> {
    if recipients == [] then []
    else
      var front, last := Relevant(recipients[..|recipients| - 1], sender), recipients[|recipients| - 1];
      if last == sender || last in front then front else front + [last]
  }

  predicate Distinct(s: seq<string>) {
    forall i, j | 0 <= i < j < |s| :: s[i] != s[j]
  }

  lemma DistinctMore(s: seq<string>, x: string)
    requires Distinct(s) && x !in s
    ensures Distinct(s + [x])
  {
    assert forall i | 0 <= i < |s| :: s[i] in s;
  }

  /** The recipients but the sender, each once, in the order of their first occurrences. */
  lemma {:induction false} RelevantOnce(recipients: seq<string>, sender: string)
    ensures var relevant := Relevant(recipients, sender);
            && Distinct(relevant)
            && (forall r :: r in relevant <==> r in recipients && r != sender)
            && InOrder(recipients, relevant)
  {
    if recipients != [] {
      var front, last := recipients[..|recipients| - 1], recipients[|recipients| - 1];
      assert recipients == front + [last];
      RelevantOnce(front, sender);
      var kept := Relevant(front, sender);
      if last !in kept {
        DistinctMore(kept, last);
      }
      forall r ensures r in Relevant(recipients, sender) <==> r in recipients && r != sender {
        assert r in recipients <==> r in front || r == last;
      }
      assert forall r | r in kept :: r in front;
      if last != sender && last !in kept {
        assert last !in front;
      }
      InOrderMore(front, kept, last);
    }
  }

  class NotificationService {
    const repository: NotificationRepository
    var emitted: seq<Entity>          // what was pushed to recipients, in order
    var trimQueue: seq<seq<string>>   // trim jobs handed to the background queue

    constructor (repository: NotificationRepository)
      ensures this.repository == repository && emitted == [] && trimQueue == []
    {
      this.repository, emitted, trimQueue := repository, [], [];
    }

    method TrimRecipientIfNeeded(recipient: string)
      modifies repository
      ensures repository.rows == Trim(old(repository.rows), recipient)
    {
      var count := repository.CountForRecipient(recipient);
      var limit := count - MAX_PER_USER;
      if limit <= 0 {
        FirstSize(repository.rows, Mine(repository.rows, recipient), limit);
        assert Victims(repository.rows, recipient) == {};
        return;
      }
      var ids := repository.FindOldestForTrim(recipient, limit);
      repository.DeleteByIds(ids);
    }

    method PersistAndEmit(entity: Entity)
      modifies this, repository
      ensures repository.rows == Trim(old(repository.rows)[entity.id := entity.note], entity.note.recipient)
      ensures emitted == old(emitted) + [entity] && trimQueue == old(trimQueue)
      ensures entity.id !in old(repository.rows) && !entity.note.read
              && (forall other | other in old(repository.rows)
                    && old(repository.rows)[other].recipient == entity.note.recipient ::
                    old(repository.rows)[other].createdAt <= entity.note.createdAt && other < entity.id) ==>
                entity.id in repository.rows && repository.rows[entity.id] == entity.note
    {
      ghost var was := repository.rows;
      if entity.id !in was && !entity.note.read
         && forall other | other in was && was[other].recipient == entity.note.recipient ::
              was[other].createdAt <= entity.note.createdAt && other < entity.id {
        NewestStays(was[entity.id := entity.note], entity.note.recipient, entity.id);
      }
      repository.Create(entity);
      TrimRecipientIfNeeded(entity.note.recipient);
      emitted := emitted + [entity];
    }

    /**
     * New-message notifications for a group.  `ids` and `createdAt` stand for the ids and times the
     * entities are created with, `actorFound` for the look-up of the sender, whose failure throws, and
     * `queueFails` for a queue that refuses the job, which is only logged.  Once every recipient is
     * trimmed, both paths leave the same store, and both push the same notifications in the same order.
     */
    method RecordNewMessage(recipients: seq<string>, sender: string, ids: seq<Id>, createdAt: seq<int>,
                            actorFound: bool, queueFails: bool)
      returns (ok: bool, ghost entities: seq<Entity>)
      requires |ids| == |createdAt| == |recipients|
      requires forall i | 0 <= i < |ids| :: ids[i] !in repository.rows
      requires forall i, j | 0 <= i < j < |ids| :: ids[i] != ids[j]
      modifies this, repository
      ensures ok <==> actorFound
      ensures !ok ==> repository.rows == old(repository.rows) && emitted == old(emitted) && trimQueue == old(trimQueue)
      ensures ok ==>
              var relevant := Relevant(recipients, sender);
              && |entities| == |relevant| <= |ids| && Batch(old(repository.rows), entities)
              && (forall i | 0 <= i < |relevant| ::
                    entities[i].id == ids[i] && entities[i].note == Note(relevant[i], false, createdAt[i]))
              && emitted == old(emitted) + entities
              && if |relevant| < 50 then
                   && repository.rows == OneByOne(old(repository.rows), entities) && trimQueue == old(trimQueue)
                 else
                   && repository.rows == InsertAll(old(repository.rows), entities)
                   && trimQueue == old(trimQueue) + (if queueFails then [] else [relevant])
                   && TrimAll(repository.rows, relevant) == OneByOne(old(repository.rows), entities)
    {
      var relevant := UniqueRecipients(recipients, sender);
      RelevantOnce(recipients, sender);
      var created := seq(|relevant|, i requires 0 <= i < |relevant| => Entity(ids[i], Note(relevant[i], false, createdAt[i])));
      entities := created;
      ok := actorFound;
      if !actorFound {
        return;
      }
      if |relevant| < OPTIMIZE_THRESHOLD {
        PersistEach(created);
        return;
      }
      repository.CreateMany(created);
      EmitAll(created);
      if !queueFails {
        trimQueue := trimQueue + [relevant];
      }
      SameRecipients(created, relevant);
      BatchRefinesOneByOne(old(repository.rows), created, relevant);
    }

    method UniqueRecipients(recipients: seq<string>, sender: string) returns (relevant: seq<string>)
      ensures relevant == Relevant(recipients, sender) && |relevant| <= |recipients|
    {
      relevant := [];
      for i := 0 to |recipients|
        invariant relevant == Relevant(recipients[..i], sender) && |relevant| <= i
      {
        assert recipients[..i + 1][..i] == recipients[..i];
        if recipients[i] != sender && recipients[i] !in relevant {
          relevant := relevant + [recipients[i]];
        }
      }
      assert recipients[..|recipients|] == recipients;
    }

    method PersistEach(entities: seq<Entity>)
      modifies this, repository
      ensures repository.rows == OneByOne(old(repository.rows), entities)
      ensures emitted == old(emitted) + entities && trimQueue == old(trimQueue)
    {
      for i := 0 to |entities|
        invariant repository.rows == OneByOne(old(repository.rows), entities[..i])
        invariant emitted == old(emitted) + entities[..i] && trimQueue == old(trimQueue)
      {
        assert entities[..i + 1][..i] == entities[..i];
        PersistAndEmit(entities[i]);
      }
      assert entities[..|entities|] == entities;
    }

    method EmitAll(entities: seq<Entity>)
      modifies this
      ensures emitted == old(emitted) + entities && trimQueue == old(trimQueue)
    {
      for i := 0 to |entities|
        invariant emitted == old(emitted) + entities[..i] && trimQueue == old(trimQueue)
      {
        emitted := emitted + [entities[i]];
      }
    }

    /** The background job: deduplicates the recipients and trims them in batches of five. */
    method RunTrimJob(recipients: seq<string>) returns (processed: nat, ghost batches: seq<seq<string>>)
      modifies repository
      ensures |batches| == (processed + 4) / 5 && forall i | 0 <= i < |batches| :: 0 < |batches[i]| <= 5
      ensures repository.rows == TrimAll(old(repository.rows), recipients)
      ensures processed == |set r | r in recipients|
    {
      var unique: seq<string> := [];
      for i := 0 to |recipients|
        invariant forall r :: r in unique <==> r in recipients[..i]
        invariant Distinct(unique) && repository.rows == old(repository.rows)
      {
        assert recipients[..i + 1] == recipients[..i] + [recipients[i]];
        if recipients[i] !in unique {
          DistinctMore(unique, recipients[i]);
          unique := unique + [recipients[i]];
        }
      }
      assert recipients[..|recipients|] == recipients;
      processed, batches := 0, [];
      while processed < |unique|
        invariant 0 <= processed <= |unique|
        invariant processed < |unique| ==> processed == 5 * |batches|
        invariant |batches| == (processed + 4) / 5 && forall i | 0 <= i < |batches| :: 0 < |batches[i]| <= 5
        invariant repository.rows == TrimAll(old(repository.rows), unique[..processed])
      {
        var end := if processed + BATCH_SIZE < |unique| then processed + BATCH_SIZE else |unique|;
        TrimBatch(unique[processed..end]);
        TrimAllMore(old(repository.rows), unique[..processed], unique[processed..end]);
        assert unique[..processed] + unique[processed..end] == unique[..end];
        batches := batches + [unique[processed..end]];
        processed := end;
      }
      assert unique[..|unique|] == unique;
      TrimAllIsTrimmed(old(repository.rows), unique);
      TrimAllIsTrimmed(old(repository.rows), recipients);
      assert (set r | r in unique) == (set r | r in recipients);
      DistinctSize(unique);
    }

    /** Trims of different recipients in parallel; `:|` picks whose call comes next, for any schedule. */
    method TrimBatch(batch: seq<string>)
      requires Distinct(batch)
      modifies repository
      ensures repository.rows == TrimAll(old(repository.rows), batch)
    {
      var trims := seq(|batch|, i requires 0 <= i < |batch| => Counting(batch[i]));
      ghost var done: set<string> := {};
      assert Trimmed(repository.rows, {}) == repository.rows;
      while exists i | 0 <= i < |trims| :: !trims[i].Finished?
        invariant |trims| == |batch| && forall i | 0 <= i < |trims| :: trims[i].recipient == batch[i]
        invariant forall i | 0 <= i < |trims| :: OnTrack(old(repository.rows), trims[i])
        invariant forall i | 0 <= i < |trims| :: trims[i].Finished? <==> batch[i] in done
        invariant done <= set r | r in batch
        invariant repository.rows == Trimmed(old(repository.rows), done)
        decreases Stages(trims)
      {
        var i :| 0 <= i < |trims| && !trims[i].Finished?;
        AwaitOnTrack(old(repository.rows), done, trims[i]);
        var next := AwaitCall(trims[i]);
        StagesFall(trims, i, next);
        if next.Finished? {
          done := done + {batch[i]};
        }
        trims := trims[i := next];
      }
      assert done == set r | r in batch;
      TrimAllIsTrimmed(old(repository.rows), batch);
    }

    method AwaitCall(trimmer: Trimmer) returns (next: Trimmer)
      modifies repository
      ensures (repository.rows, next) == Await(old(repository.rows), trimmer)
    {
      match trimmer
      case Counting(recipient) =>
        var count := repository.CountForRecipient(recipient);
        next := if count - MAX_PER_USER <= 0 then Finished(recipient) else Finding(recipient, count - MAX_PER_USER);
      case Finding(recipient, limit) =>
        var ids := repository.FindOldestForTrim(recipient, limit);
        next := Deleting(recipient, ids);
      case Deleting(recipient, ids) =>
        repository.DeleteByIds(ids);
        next := Finished(recipient);
      case Finished(_) =>
        next := trimmer;
    }
  }

  lemma {:induction false} DistinctSize(s: seq<string>)
    requires Distinct(s)
    ensures |set r | r in s| == |s|
  {
    if s != [] {
      var front, last := s[..|s| - 1], s[|s| - 1];
      DistinctSize(front);
      assert (set r | r in s) == (set r | r in front) + {last};
    }
  }

  lemma SameRecipients(entities: seq<Entity>, relevant: seq<string>)
    requires |entities| == |relevant|
    requires forall i | 0 <= i < |relevant| :: entities[i].note.recipient == relevant[i]
    ensures (set r | r in relevant) == Recipients(entities)
  {
  }
}
