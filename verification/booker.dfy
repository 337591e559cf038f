/** Transitive availability and top-down booking over the hierarchy, and the
    four queries built on them. */
module Booker {
  import opened Resources
  import opened Bookings

  /** The four reply tokens. */
  datatype Reply = Ok | Failed | Yes | No

  /** The text written for a reply. */
  function Text(r: Reply): string
  {
    match r
    case Ok => "ok"
    case Failed => "failed"
    case Yes => "yes"
    case No => "no"
  }

  /** Different replies are written differently, so the output determines
      the replies. */
  lemma TextInjective(a: Reply, b: Reply)
    ensures Text(a) == Text(b) ==> a == b
  {
  }

  /** The reply to one query, with the ledger it leaves behind. */
  datatype Step = Step(ledger: Ledger, reply: Reply)

  /** No id of `S` is directly booked on `d`. */
  ghost predicate FreeOn(l: Ledger, S: set<string>, d: string)
  {
    forall k :: k in S ==> !IsDirectlyBooked(l, k, d)
  }

  // ---------------------------------------------------------------------------
  // Availability

  /** Whether `id` and everything below it can be booked on `d`: the id's own
      entry is checked first, then each child in visiting order, stopping at the
      first child that cannot be booked. */
  function CanBook(h: Hierarchy, l: Ledger, id: string, d: string): (free: bool)
    requires WellFormed(h)
    ensures free <==> FreeOn(l, Subtree(h, id), d)
    decreases Rank(h, id), 1
  {
    ChildrenRank(h, id);
    !IsDirectlyBooked(l, id, d) && AllCanBook(h, l, Children(h, id), d, Rank(h, id))
  }

  /** The short-circuiting loop over the children `cs`. */
  function AllCanBook(h: Hierarchy, l: Ledger, cs: seq<string>, d: string, ghost bound: nat): (free: bool)
    requires WellFormed(h)
    requires forall c :: c in cs ==> Rank(h, c) < bound
    ensures free <==> FreeOn(l, Subtrees(h, cs, bound), d)
    decreases bound, 0, |cs|
  {
    if cs == [] then true
    else CanBook(h, l, cs[0], d) && AllCanBook(h, l, cs[1..], d, bound)
  }

  // ---------------------------------------------------------------------------
  // Booking

  /** Appends `d` to `id`'s entry, then books each child in visiting order. */
  function BookAll(h: Hierarchy, l: Ledger, id: string, d: string): (l': Ledger)
    requires WellFormed(h)
    ensures AppendsOnly(l, l', d, Subtree(h, id))
    ensures Covers(l', d, Subtree(h, id))
    decreases Rank(h, id), 1
  {
    ChildrenRank(h, id);
    var l1 := Record(l, id, d);
    var l2 := BookEach(h, l1, Children(h, id), d, Rank(h, id));
    AppendsOnlyCompose(l, l1, l2, d, {id}, Subtrees(h, Children(h, id), Rank(h, id)));
    CoversKept(l1, l2, d, Subtrees(h, Children(h, id), Rank(h, id)), {id});
    l2
  }

  /** The loop booking the children `cs` one after the other. */
  function BookEach(h: Hierarchy, l: Ledger, cs: seq<string>, d: string, ghost bound: nat): (l': Ledger)
    requires WellFormed(h)
    requires forall c :: c in cs ==> Rank(h, c) < bound
    ensures AppendsOnly(l, l', d, Subtrees(h, cs, bound))
    ensures Covers(l', d, Subtrees(h, cs, bound))
    decreases bound, 0, |cs|
  {
    if cs == [] then
      AppendsOnlyNothing(l, d, {});
      l
    else
      var l1 := BookAll(h, l, cs[0], d);
      var l2 := BookEach(h, l1, cs[1..], d, bound);
      AppendsOnlyCompose(l, l1, l2, d, Subtree(h, cs[0]), Subtrees(h, cs[1..], bound));
      CoversKept(l1, l2, d, Subtrees(h, cs[1..], bound), Subtree(h, cs[0]));
      l2
  }

  // ---------------------------------------------------------------------------
  // The four queries

  /** `book id date`: books the whole subtree when all of it is free. */
  function Book(h: Hierarchy, l: Ledger, id: string, d: string): (s: Step)
    requires WellFormed(h)
    ensures s.reply == Ok || s.reply == Failed
    ensures s.reply == Ok <==> FreeOn(l, Subtree(h, id), d)
    ensures s.reply == Failed ==> s.ledger == l
    ensures s.reply == Ok ==> AppendsOnly(l, s.ledger, d, Subtree(h, id))
    ensures s.reply == Ok ==> Covers(s.ledger, d, Subtree(h, id))
  {
    if CanBook(h, l, id, d) then Step(BookAll(h, l, id, d), Ok) else Step(l, Failed)
  }

  /** `is_booked id date`: only the id's own entry is consulted. */
  function IsBooked(l: Ledger, id: string, d: string): (answer: Reply)
    ensures answer == Yes || answer == No
    ensures answer == Yes <==> id in l && d in l[id]
  {
    if IsDirectlyBooked(l, id, d) then Yes else No
  }

  /** `is_all_booked id date`: Yes as soon as anything in the subtree is
      booked on the date. */
  function IsAllBooked(h: Hierarchy, l: Ledger, id: string, d: string): (answer: Reply)
    requires WellFormed(h)
    ensures answer == Yes || answer == No
    ensures answer == Yes <==> exists k :: k in Subtree(h, id) && IsDirectlyBooked(l, k, d)
  {
    if CanBook(h, l, id, d) then No else Yes
  }

  /** `is_available id date`: Yes exactly when nothing in the subtree is
      booked on the date. */
  function IsAvailable(h: Hierarchy, l: Ledger, id: string, d: string): (answer: Reply)
    requires WellFormed(h)
    ensures answer == Yes || answer == No
    ensures answer == Yes <==> FreeOn(l, Subtree(h, id), d)
  {
    if CanBook(h, l, id, d) then Yes else No
  }

  // ---------------------------------------------------------------------------
  // Properties

  /** The subtree of a child lies inside the subtree of its parent. */
  lemma {:induction false} SubtreesContain(h: Hierarchy, cs: seq<string>, bound: nat, c: string)
    requires WellFormed(h)
    requires forall c' :: c' in cs ==> Rank(h, c') < bound
    requires c in cs
    ensures Subtree(h, c) <= Subtrees(h, cs, bound)
    decreases |cs|
  {
    if cs[0] != c {
      SubtreesContain(h, cs[1..], bound, c);
    }
  }

  /** An id's subtree holds the id itself and the subtree of each child. */
  lemma ChildSubtree(h: Hierarchy, id: string)
    requires WellFormed(h)
    ensures id in Subtree(h, id)
    ensures forall c :: c in Children(h, id) ==> Subtree(h, c) <= Subtree(h, id)
  {
    ChildrenRank(h, id);
    forall c | c in Children(h, id)
      ensures Subtree(h, c) <= Subtree(h, id)
    {
      SubtreesContain(h, Children(h, id), Rank(h, id), c);
    }
  }

  /** A booked child, however deep, makes every ancestor unavailable. */
  lemma BookedChildBlocks(h: Hierarchy, l: Ledger, id: string, c: string, k: string, d: string)
    requires WellFormed(h)
    requires c in Children(h, id) && k in Subtree(h, c)
    requires IsDirectlyBooked(l, k, d)
    ensures !CanBook(h, l, id, d)
    ensures IsAvailable(h, l, id, d) == No && IsAllBooked(h, l, id, d) == Yes
  {
    ChildSubtree(h, id);
  }

  /** Checking the children one by one with early exit answers the same as
      asking whether every child can be booked. */
  lemma ShortCircuitIrrelevant(h: Hierarchy, l: Ledger, cs: seq<string>, d: string, bound: nat)
    requires WellFormed(h)
    requires forall c :: c in cs ==> Rank(h, c) < bound
    ensures AllCanBook(h, l, cs, d, bound) <==> forall c :: c in cs ==> CanBook(h, l, c, d)
  {
    if AllCanBook(h, l, cs, d, bound) {
      ShortCircuitSound(h, l, cs, d, bound);
    } else {
      ShortCircuitComplete(h, l, cs, d, bound);
    }
  }

  /** When the loop runs to the end, every child can be booked ... */
  lemma {:induction false} ShortCircuitSound(h: Hierarchy, l: Ledger, cs: seq<string>, d: string, bound: nat)
    requires WellFormed(h)
    requires forall c :: c in cs ==> Rank(h, c) < bound
    requires AllCanBook(h, l, cs, d, bound)
    ensures forall c :: c in cs ==> CanBook(h, l, c, d)
    decreases |cs|
  {
    if cs != [] {
      ShortCircuitSound(h, l, cs[1..], d, bound);
      forall c | c in cs
        ensures CanBook(h, l, c, d)
      {
        if c != cs[0] {
          assert c in cs[1..];
        }
      }
    }
  }

  /** ... and when it stops early, some child cannot be booked. */
  lemma {:induction false} ShortCircuitComplete(h: Hierarchy, l: Ledger, cs: seq<string>, d: string, bound: nat)
    requires WellFormed(h)
    requires forall c :: c in cs ==> Rank(h, c) < bound
    requires !AllCanBook(h, l, cs, d, bound)
    ensures exists c :: c in cs && !CanBook(h, l, c, d)
    decreases |cs|
  {
    if CanBook(h, l, cs[0], d) {
      ShortCircuitComplete(h, l, cs[1..], d, bound);
      var c :| c in cs[1..] && !CanBook(h, l, c, d);
      assert c in cs;
    }
  }

  /** The recursion as a specification: free, and every child free. */
  lemma CanBookUnfolds(h: Hierarchy, l: Ledger, id: string, d: string)
    requires WellFormed(h)
    ensures CanBook(h, l, id, d) <==>
      !IsDirectlyBooked(l, id, d) && forall c :: c in Children(h, id) ==> CanBook(h, l, c, d)
  {
    ChildrenRank(h, id);
    ShortCircuitIrrelevant(h, l, Children(h, id), d, Rank(h, id));
  }

  /** An id the hierarchy does not know as a container has no children, so
      only its own entry decides: unbooked, it is available and can be booked,
      after which it reads as booked. */
  lemma UnknownIsFree(h: Hierarchy, l: Ledger, id: string, d: string)
    requires WellFormed(h)
    requires id !in h && id !in SectionIds(h) && id !in SubsectionIds(h)
    requires !IsDirectlyBooked(l, id, d)
    ensures Subtree(h, id) == {id}
    ensures CanBook(h, l, id, d) && IsAvailable(h, l, id, d) == Yes
    ensures Book(h, l, id, d).reply == Ok
    ensures IsBooked(Book(h, l, id, d).ledger, id, d) == Yes
  {
    LeafHasNoChildren(h, id);
  }

  /** `is_all_booked` and `is_available` always answer opposite ways. */
  lemma Complementary(h: Hierarchy, l: Ledger, id: string, d: string)
    requires WellFormed(h)
    ensures IsAllBooked(h, l, id, d) == Yes <==> IsAvailable(h, l, id, d) == No
  {
  }

  /** After a successful booking every resource of the subtree reads as
      booked, the resource is no longer available, and booking it again on
      the same date fails without touching the ledger. */
  lemma BookOkThenBooked(h: Hierarchy, l: Ledger, id: string, d: string)
    requires WellFormed(h)
    requires Book(h, l, id, d).reply == Ok
    ensures forall k :: k in Subtree(h, id) ==> IsBooked(Book(h, l, id, d).ledger, k, d) == Yes
    ensures IsAvailable(h, Book(h, l, id, d).ledger, id, d) == No
    ensures IsAllBooked(h, Book(h, l, id, d).ledger, id, d) == Yes
    ensures Book(h, Book(h, l, id, d).ledger, id, d) == Step(Book(h, l, id, d).ledger, Failed)
  {
    var l' := Book(h, l, id, d).ledger;
    assert id in Subtree(h, id);
    assert IsDirectlyBooked(l', id, d);
  }

  /** Bookings on other dates are untouched, so every query about another
      date answers as before. */
  lemma BookOtherDate(h: Hierarchy, l: Ledger, id: string, d: string, x: string, d': string)
    requires WellFormed(h)
    requires d' != d
    ensures IsBooked(Book(h, l, id, d).ledger, x, d') == IsBooked(l, x, d')
    ensures CanBook(h, Book(h, l, id, d).ledger, x, d') == CanBook(h, l, x, d')
  {
    var s := Book(h, l, id, d);
    if s.reply == Ok {
      AppendsOnlyOtherDate(l, s.ledger, d, Subtree(h, id), d');
    }
  }

  /** A resource whose subtree is disjoint from the booked one keeps its
      availability on every date. */
  lemma BookDisjoint(h: Hierarchy, l: Ledger, id: string, d: string, x: string, d': string)
    requires WellFormed(h)
    requires Subtree(h, x) !! Subtree(h, id)
    ensures IsBooked(Book(h, l, id, d).ledger, x, d') == IsBooked(l, x, d')
    ensures CanBook(h, Book(h, l, id, d).ledger, x, d') == CanBook(h, l, x, d')
  {
    var s := Book(h, l, id, d);
    if s.reply == Ok {
      assert x in Subtree(h, x);
      forall k | k in Subtree(h, x)
        ensures IsDirectlyBooked(s.ledger, k, d') == IsDirectlyBooked(l, k, d')
      {
        AppendsOnlyOutside(l, s.ledger, d, Subtree(h, id), k, d');
      }
    }
  }

  /** A booking only ever adds dates. */
  lemma BookGrows(h: Hierarchy, l: Ledger, id: string, d: string)
    requires WellFormed(h)
    ensures Grows(l, Book(h, l, id, d).ledger)
  {
    var s := Book(h, l, id, d);
    if s.reply == Ok {
      AppendsOnlyGrows(l, s.ledger, d, Subtree(h, id));
    }
  }

  /** Bookings are never undone: once something in the subtree is booked,
      the id stays unbookable under every ledger that grows from this one. */
  lemma StaysUnavailable(h: Hierarchy, l: Ledger, l': Ledger, id: string, d: string)
    requires WellFormed(h) && Grows(l, l')
    requires !CanBook(h, l, id, d)
    ensures !CanBook(h, l', id, d)
    ensures IsAvailable(h, l', id, d) == No && IsAllBooked(h, l', id, d) == Yes
  {
    var k :| k in Subtree(h, id) && IsDirectlyBooked(l, k, d);
    assert l[k] <= l'[k];
    var i :| 0 <= i < |l[k]| && l[k][i] == d;
    assert l'[k][i] == d;
  }

  /** After an `ok`, the id is unavailable and all-booked on that date from
      then on, whatever later bookings add. */
  lemma BookedForGood(h: Hierarchy, l: Ledger, id: string, d: string, l': Ledger)
    requires WellFormed(h)
    requires Book(h, l, id, d).reply == Ok && Grows(Book(h, l, id, d).ledger, l')
    ensures IsAvailable(h, l', id, d) == No && IsAllBooked(h, l', id, d) == Yes
  {
    BookOkThenBooked(h, l, id, d);
    StaysUnavailable(h, Book(h, l, id, d).ledger, l', id, d);
  }
}
