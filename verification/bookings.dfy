/** The booking ledger: for each resource id, the dates it was booked on
    directly, in the order they were appended. Entries are never removed, and a
    date may occur more than once. */
module Bookings {

  type Ledger = map<string, seq<string>>

  /** The dates recorded for `id`; an id without an entry has none. */
  function Entry(l: Ledger, id: string): seq<string>
  {
    if id in l then l[id] else []
  }

  /** The linear scan of one entry for a date. */
  function Scan(dates: seq<string>, d: string): (found: bool)
    ensures found <==> d in dates
  {
    if dates == [] then false
    else dates[0] == d || Scan(dates[1..], d)
  }

  /** Whether `id` itself (not anything below it) is booked on `d`. */
  function IsDirectlyBooked(l: Ledger, id: string, d: string): (booked: bool)
    ensures booked <==> id in l && d in l[id]
  {
    id in l && Scan(l[id], d)
  }

  /** `l'` is `l` with copies of `d` appended to entries of ids in `S`, and
      nothing else changed. */
  ghost predicate AppendsOnly(l: Ledger, l': Ledger, d: string, S: set<string>)
  {
    && (forall k :: k in l ==> k in l')
    && (forall k :: k in l' && k !in S ==> k in l && l'[k] == l[k])
    && (forall k :: k in l' ==> Entry(l, k) <= l'[k])
    && (forall k, j :: k in l' && |Entry(l, k)| <= j < |l'[k]| ==> l'[k][j] == d)
  }

  /** Every id in `S` is directly booked on `d`. */
  ghost predicate Covers(l: Ledger, d: string, S: set<string>)
  {
    forall k :: k in S ==> IsDirectlyBooked(l, k, d)
  }

  /** No entry has lost or changed a date. */
  ghost predicate Grows(l: Ledger, l': Ledger)
  {
    forall k :: k in l ==> k in l' && l[k] <= l'[k]
  }

  /** Appending `d` to `id`'s entry, creating the entry if there is none. */
  function Record(l: Ledger, id: string, d: string): (l': Ledger)
    ensures AppendsOnly(l, l', d, {id})
    ensures Covers(l', d, {id})
    ensures |Entry(l', id)| == |Entry(l, id)| + 1
  {
    l[id := Entry(l, id) + [d]]
  }

  lemma AppendsOnlyNothing(l: Ledger, d: string, S: set<string>)
    ensures AppendsOnly(l, l, d, S)
  {
  }

  lemma AppendsOnlyCompose(l1: Ledger, l2: Ledger, l3: Ledger, d: string, S1: set<string>, S2: set<string>)
    requires AppendsOnly(l1, l2, d, S1)
    requires AppendsOnly(l2, l3, d, S2)
    ensures AppendsOnly(l1, l3, d, S1 + S2)
  {
    forall k, j | k in l3 && |Entry(l1, k)| <= j < |l3[k]|
      ensures l3[k][j] == d
    {
      if j < |Entry(l2, k)| {
        assert k in l2;
        assert l3[k][j] == l2[k][j];
      }
    }
  }

  lemma AppendsOnlyGrows(l: Ledger, l': Ledger, d: string, S: set<string>)
    requires AppendsOnly(l, l', d, S)
    ensures Grows(l, l')
  {
    forall k | k in l
      ensures k in l' && l[k] <= l'[k]
    {
      assert Entry(l, k) == l[k];
    }
  }

  lemma CoversKept(l: Ledger, l': Ledger, d: string, S: set<string>, T: set<string>)
    requires AppendsOnly(l, l', d, S)
    requires Covers(l, d, T)
    ensures Covers(l', d, T)
  {
    forall k | k in T
      ensures IsDirectlyBooked(l', k, d)
    {
      assert l[k] <= l'[k];
      var i :| 0 <= i < |l[k]| && l[k][i] == d;
      assert l'[k][i] == d;
    }
  }

  /** Appending `d` leaves every other date's bookings as they were. */
  lemma AppendsOnlyOtherDate(l: Ledger, l': Ledger, d: string, S: set<string>, d': string)
    requires AppendsOnly(l, l', d, S)
    requires d' != d
    ensures forall k :: IsDirectlyBooked(l', k, d') == IsDirectlyBooked(l, k, d')
  {
    forall k
      ensures IsDirectlyBooked(l', k, d') == IsDirectlyBooked(l, k, d')
    {
      if IsDirectlyBooked(l', k, d') {
        var i :| 0 <= i < |l'[k]| && l'[k][i] == d';
        assert i < |Entry(l, k)|;
        assert l[k][i] == d';
      }
      if IsDirectlyBooked(l, k, d') {
        var i :| 0 <= i < |l[k]| && l[k][i] == d';
        assert l[k] <= l'[k];
        assert l'[k][i] == d';
      }
    }
  }

  /** Ids outside `S` keep their bookings on every date. */
  lemma AppendsOnlyOutside(l: Ledger, l': Ledger, d: string, S: set<string>, k: string, d': string)
    requires AppendsOnly(l, l', d, S)
    requires k !in S
    ensures IsDirectlyBooked(l', k, d') == IsDirectlyBooked(l, k, d')
  {
  }
}
