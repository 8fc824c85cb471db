/** One relational table with a generated primary key, standing in for a PostgreSQL
    `serial` column: rows keyed by id, and the next value the id sequence hands out.
    Ids start at 1 and are never reused. */
module Tables {

  datatype Table<T> = Table(rows: map<int, T>, next: int)

  /** Every stored id was drawn from the sequence: it is positive and below `next`. */
  predicate IdsFresh<T>(t: Table<T>) {
    0 < t.next && forall k :: k in t.rows ==> 0 < k < t.next
  }

  function EmptyTable<T>(): (t: Table<T>)
    ensures IdsFresh(t) && t.rows == map[]
  {
    Table(map[], 1)
  }

  /** An INSERT: the row gets the next id of the sequence, which no stored row has. */
  function Insert<T>(t: Table<T>, v: T): (r: (Table<T>, int))
    ensures IdsFresh(t) ==> r.1 !in t.rows && IdsFresh(r.0)
    ensures r.0.rows == t.rows[r.1 := v]
  {
    (Table(t.rows[t.next := v], t.next + 1), t.next)
  }

  /** An UPDATE of a stored row. */
  function Put<T>(t: Table<T>, k: int, v: T): (r: Table<T>)
    requires k in t.rows
    ensures r.rows == t.rows[k := v] && r.rows.Keys == t.rows.Keys
    ensures IdsFresh(t) ==> IdsFresh(r)
  {
    Table(t.rows[k := v], t.next)
  }

  /** A DELETE by primary key. */
  function Delete<T>(t: Table<T>, k: int): (r: Table<T>)
    ensures r.rows == t.rows - {k}
    ensures IdsFresh(t) ==> IdsFresh(r)
  {
    Table(t.rows - {k}, t.next)
  }

  /** A DELETE of every row whose foreign key (read by `owner`) is `id`: the rows kept
      are exactly those owned by someone else, unchanged. */
  function DeleteOwned<T>(t: Table<T>, owner: T -> int, id: int): (r: Table<T>)
    ensures forall k :: k in r.rows <==> k in t.rows && owner(t.rows[k]) != id
    ensures forall k :: k in r.rows ==> r.rows[k] == t.rows[k]
    ensures IdsFresh(t) ==> IdsFresh(r)
  {
    Table(map k | k in t.rows && owner(t.rows[k]) != id :: t.rows[k], t.next)
  }

  /** The ids of `m` in `[0, n)`, increasing. */
  function IdsBelow<T>(m: map<int, T>, n: int): (r: seq<int>)
    ensures forall j :: 0 <= j < |r| ==> r[j] in m && r[j] < n
    ensures forall i, j :: 0 <= i < j < |r| ==> r[i] < r[j]
    ensures forall k :: 0 <= k < n && k in m ==> k in r
    decreases n
  {
    if n <= 0 then []
    else
      var p := IdsBelow(m, n - 1);
      if n - 1 in m then p + [n - 1] else p
  }

  /** SELECT of every id; the order is fixed here as increasing id. With fresh ids every
      stored row appears. */
  function Ids<T>(t: Table<T>): (r: seq<int>)
    ensures forall j :: 0 <= j < |r| ==> r[j] in t.rows
    ensures forall i, j :: 0 <= i < j < |r| ==> r[i] < r[j]
    ensures IdsFresh(t) ==> forall k :: k in t.rows ==> k in r
  {
    IdsBelow(t.rows, t.next)
  }

  /** Keeps the ids whose row is owned by `id`, in their original order. */
  function KeepOwned<T>(ids: seq<int>, m: map<int, T>, owner: T -> int, id: int): (r: seq<int>)
    requires forall j :: 0 <= j < |ids| ==> ids[j] in m
    ensures forall j :: 0 <= j < |r| ==> r[j] in ids && owner(m[r[j]]) == id
    ensures forall k :: k in ids && owner(m[k]) == id ==> k in r
    ensures (forall i, j :: 0 <= i < j < |ids| ==> ids[i] < ids[j]) ==>
              forall i, j :: 0 <= i < j < |r| ==> r[i] < r[j]
    decreases |ids|
  {
    if |ids| == 0 then []
    else
      var rest := KeepOwned(ids[1..], m, owner, id);
      if owner(m[ids[0]]) == id then [ids[0]] + rest else rest
  }

  /** SELECT of the ids whose row has foreign key `id`, increasing; with fresh ids it
      lists every such row. */
  function OwnedIds<T>(t: Table<T>, owner: T -> int, id: int): (r: seq<int>)
    ensures forall j :: 0 <= j < |r| ==> r[j] in t.rows && owner(t.rows[r[j]]) == id
    ensures forall i, j :: 0 <= i < j < |r| ==> r[i] < r[j]
    ensures IdsFresh(t) ==> forall k :: k in t.rows && owner(t.rows[k]) == id ==> k in r
  {
    KeepOwned(Ids(t), t.rows, owner, id)
  }

  lemma {:induction false} KeepOwnedNone<T>(ids: seq<int>, m: map<int, T>, owner: T -> int, id: int)
    requires forall j :: 0 <= j < |ids| ==> ids[j] in m
    requires forall k :: k in m ==> owner(m[k]) != id
    ensures KeepOwned(ids, m, owner, id) == []
    decreases |ids|
  {
    if |ids| > 0 {
      KeepOwnedNone(ids[1..], m, owner, id);
    }
  }

  /** A table with no row owned by `id` lists nothing for it. */
  lemma NoneOwnedNoIds<T>(t: Table<T>, owner: T -> int, id: int)
    requires forall k :: k in t.rows ==> owner(t.rows[k]) != id
    ensures OwnedIds(t, owner, id) == []
  {
    KeepOwnedNone(Ids(t), t.rows, owner, id);
  }
}
