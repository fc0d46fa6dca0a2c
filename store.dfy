/** The FoodEntry table as the diary routes change it: add one entry, delete one by id,
    list all entries newest first. */
module Store {
  import opened Models

  function EntriesOf(rows: seq<StoredEntry>): (es: seq<FoodEntry>)
    ensures |es| == |rows|
    ensures forall i :: 0 <= i < |rows| ==> es[i] == rows[i].entry
  {
    seq(|rows|, i requires 0 <= i < |rows| => rows[i].entry)
  }

  function IdsOf(rows: seq<StoredEntry>): set<nat>
  {
    set r | r in rows :: r.id
  }

  predicate UniqueIds(rows: seq<StoredEntry>)
  {
    forall i, j :: 0 <= i < j < |rows| ==> rows[i].id != rows[j].id
  }

  /** Position of the row with the given id, or -1 (`get_or_404`'s lookup). */
  function IndexOfId(rows: seq<StoredEntry>, id: nat): (k: int)
    ensures -1 <= k < |rows|
    ensures k >= 0 ==> rows[k].id == id
    ensures k == -1 <==> id !in IdsOf(rows)
  {
    if rows == [] then -1
    else if rows[|rows| - 1].id == id then |rows| - 1
    else
      var init := rows[..|rows| - 1];
      assert rows == init + [rows[|rows| - 1]];
      assert IdsOf(rows) == IdsOf(init) + {rows[|rows| - 1].id};
      IndexOfId(init, id)
  }

  /** Date order descending; entries of the same date may come in any order. */
  predicate NewestFirst(rows: seq<StoredEntry>)
  {
    forall i, j :: 0 <= i < j < |rows| ==> !Before(rows[i].entry.date, rows[j].entry.date)
  }

  lemma NewerThanAll(x: StoredEntry, sorted: seq<StoredEntry>)
    requires NewestFirst(sorted) && sorted != []
    requires !Before(x.entry.date, sorted[0].entry.date)
    ensures forall y :: y in sorted ==> !Before(x.entry.date, y.entry.date)
  {
    forall y | y in sorted
      ensures !Before(x.entry.date, y.entry.date)
    {
      var j :| 0 <= j < |sorted| && sorted[j] == y;
      if j > 0 {
        NotBeforeTransitive(x.entry.date, sorted[0].entry.date, y.entry.date);
      }
    }
  }

  lemma HeadNewerThanRest(sorted: seq<StoredEntry>, x: StoredEntry, rest: seq<StoredEntry>)
    requires NewestFirst(sorted) && sorted != []
    requires Before(x.entry.date, sorted[0].entry.date)
    requires multiset(rest) == multiset(sorted[1..]) + multiset{x}
    ensures forall y :: y in rest ==> !Before(sorted[0].entry.date, y.entry.date)
  {
    forall y | y in rest
      ensures !Before(sorted[0].entry.date, y.entry.date)
    {
      assert y in multiset(rest);
      if y != x {
        assert y in multiset(sorted[1..]);
        var j :| 0 <= j < |sorted[1..]| && sorted[1..][j] == y;
        assert sorted[j + 1] == y;
      }
    }
  }

  function InsertNewestFirst(sorted: seq<StoredEntry>, x: StoredEntry): (r: seq<StoredEntry>)
    requires NewestFirst(sorted)
    ensures NewestFirst(r)
    ensures multiset(r) == multiset(sorted) + multiset{x}
  {
    if sorted == [] then [x]
    else if !Before(x.entry.date, sorted[0].entry.date) then
      NewerThanAll(x, sorted);
      [x] + sorted
    else
      var rest := InsertNewestFirst(sorted[1..], x);
      assert sorted == [sorted[0]] + sorted[1..];
      HeadNewerThanRest(sorted, x, rest);
      [sorted[0]] + rest
  }

  /** `ORDER BY date DESC`: the listing is a permutation of the rows, newest first. */
  function SortNewestFirst(rows: seq<StoredEntry>): (r: seq<StoredEntry>)
    ensures NewestFirst(r)
    ensures multiset(r) == multiset(rows)
  {
    if rows == [] then []
    else
      var init := rows[..|rows| - 1];
      assert rows == init + [rows[|rows| - 1]];
      InsertNewestFirst(SortNewestFirst(init), rows[|rows| - 1])
  }

  /** Removing the row at k from rows with unique ids removes exactly the row with its id. */
  lemma RemoveAt(rows: seq<StoredEntry>, k: nat)
    requires UniqueIds(rows) && k < |rows|
    ensures
      var r := rows[..k] + rows[k + 1..];
      && UniqueIds(r)
      && forall x :: x in r <==> x in rows && x.id != rows[k].id
  {
    var r := rows[..k] + rows[k + 1..];
    assert forall j :: 0 <= j < |r| ==> r[j] == rows[if j < k then j else j + 1];
    forall x | x in rows && x.id != rows[k].id
      ensures x in r
    {
      var j :| 0 <= j < |rows| && rows[j] == x;
      assert r[if j < k then j else j - 1] == x;
    }
  }

  datatype DeleteOutcome = Deleted | NotFound

  datatype DiaryOutcome = Added(id: nat) | Invalid

  class EntryStore {
    /** The committed rows in insertion order. */
    var rows: seq<StoredEntry>
    /** Source of fresh ids. */
    var nextId: nat

    ghost predicate Valid()
      reads this
    {
      && UniqueIds(rows)
      && forall i :: 0 <= i < |rows| ==> rows[i].id < nextId
    }

    constructor ()
      ensures Valid() && rows == []
    {
      rows := [];
      nextId := 1;
    }

    /** A full-table scan. */
    function Entries(): seq<FoodEntry>
      reads this
    {
      EntriesOf(rows)
    }

    /** Adds one entry under an id no row has. */
    method Add(e: FoodEntry) returns (id: nat)
      requires Valid()
      modifies this
      ensures Valid()
      ensures id !in IdsOf(old(rows))
      ensures rows == old(rows) + [StoredEntry(id, e)]
    {
      id := nextId;
      rows := rows + [StoredEntry(id, e)];
      nextId := nextId + 1;
    }

    /** `session.commit()` of pending entries: each is added, in order, under a fresh id. */
    method AddAll(pending: seq<FoodEntry>)
      requires Valid()
      modifies this
      ensures Valid()
      ensures |rows| == |old(rows)| + |pending|
      ensures rows[..|old(rows)|] == old(rows)
      ensures Entries() == old(Entries()) + pending
    {
      var i := 0;
      while i < |pending|
        invariant 0 <= i <= |pending|
        invariant Valid()
        invariant |rows| == |old(rows)| + i
        invariant rows[..|old(rows)|] == old(rows)
        invariant forall j :: 0 <= j < i ==> rows[|old(rows)| + j].entry == pending[j]
      {
        var _ := Add(pending[i]);
        i := i + 1;
      }
      assert Entries() == old(Entries()) + pending;
    }

    /** `delete_entry`: 404 and no change when the id is absent, otherwise that one row goes. */
    method Delete(id: nat) returns (outcome: DeleteOutcome)
      requires Valid()
      modifies this
      ensures Valid() && nextId == old(nextId)
      ensures outcome == NotFound <==> id !in IdsOf(old(rows))
      ensures outcome == NotFound ==> rows == old(rows)
      ensures outcome == Deleted ==>
        exists k :: 0 <= k < |old(rows)| && old(rows)[k].id == id && rows == old(rows)[..k] + old(rows)[k + 1..]
      ensures outcome == Deleted ==> forall x :: x in rows <==> x in old(rows) && x.id != id
    {
      var k := IndexOfId(rows, id);
      if k < 0 {
        outcome := NotFound;
      } else {
        RemoveAt(rows, k);
        rows := rows[..k] + rows[k + 1..];
        outcome := Deleted;
      }
    }

    /** The diary listing: every stored row once, newest date first. */
    method Listing() returns (listing: seq<StoredEntry>)
      ensures multiset(listing) == multiset(rows)
      ensures NewestFirst(listing)
    {
      listing := SortNewestFirst(rows);
    }

    /** Diary POST: the form is converted with the import's conversion; on success exactly
        one entry, owned by the default user, is added. */
    method DiaryPost(form: Fields, parseDate: string -> Option<Date>, parseNumber: string -> Option<real>)
      returns (outcome: DiaryOutcome)
      requires Valid()
      modifies this
      ensures Valid()
      ensures outcome.Invalid? <==> ToEntry(form, parseDate, parseNumber).None?
      ensures outcome.Invalid? ==> rows == old(rows) && nextId == old(nextId)
      ensures outcome.Added? ==>
        && outcome.id !in IdsOf(old(rows))
        && rows == old(rows) + [StoredEntry(outcome.id, ToEntry(form, parseDate, parseNumber).value)]
        && rows[|rows| - 1].entry.userId == DEFAULT_USER
    {
      var parsed := ToEntry(form, parseDate, parseNumber);
      if parsed.None? {
        outcome := Invalid;
      } else {
        var id := Add(parsed.value);
        outcome := Added(id);
      }
    }
  }
}
