/** The static resource hierarchy: buildings keyed by id, each with direct
    vehicles and sections; each section with direct vehicles and subsections.
    A `Section` may nest further, as the record does, but only two levels of
    sections are ever consulted. */
module Resources {
  import opened KeyOrder

  datatype Section = Section(id: string, subsections: seq<Section>, vehicles: seq<string>)

  datatype Building = Building(id: string, sections: seq<Section>, vehicles: seq<string>)

  /** Buildings by id; iterated in `KeyOrder.SortedKeys` order. */
  type Hierarchy = map<string, Building>

  /** Inserting the parsed buildings one after the other: a later building
      with the same id replaces the earlier one. */
  function Load(bs: seq<Building>): Hierarchy
  {
    if bs == [] then map[]
    else Load(bs[..|bs| - 1])[bs[|bs| - 1].id := bs[|bs| - 1]]
  }

  /** `h` holds exactly the ids of the first `n` buildings. */
  ghost predicate KeysOf(h: Hierarchy, bs: seq<Building>, n: nat)
    requires n <= |bs|
  {
    forall k :: k in h <==> exists i :: 0 <= i < n && bs[i].id == k
  }

  /** Among the first `n` buildings, one whose id is not repeated later is
      the one `h` stores. */
  ghost predicate LastOf(h: Hierarchy, bs: seq<Building>, n: nat)
    requires n <= |bs|
  {
    forall i :: 0 <= i < n && (forall j :: i < j < n ==> bs[j].id != bs[i].id)
      ==> bs[i].id in h && h[bs[i].id] == bs[i]
  }

  /** One insertion extends the key set by one building's id ... */
  lemma LoadStepKeys(bs: seq<Building>, n: nat, h0: Hierarchy, h: Hierarchy)
    requires n < |bs| && h == h0[bs[n].id := bs[n]]
    requires KeysOf(h0, bs, n)
    ensures KeysOf(h, bs, n + 1)
  {
    forall k
      ensures k in h <==> exists i :: 0 <= i < n + 1 && bs[i].id == k
    {
      if k in h0 {
        var i :| 0 <= i < n && bs[i].id == k;
      }
    }
  }

  /** ... and keeps every building whose id is not repeated later. */
  lemma LoadStepLast(bs: seq<Building>, n: nat, h0: Hierarchy, h: Hierarchy)
    requires n < |bs| && h == h0[bs[n].id := bs[n]]
    requires LastOf(h0, bs, n)
    ensures LastOf(h, bs, n + 1)
  {
  }

  /** Loading a prefix, by induction on its length. */
  lemma {:induction false} LoadPrefix(bs: seq<Building>, n: nat)
    requires n <= |bs|
    ensures KeysOf(Load(bs[..n]), bs, n) && LastOf(Load(bs[..n]), bs, n)
  {
    if n > 0 {
      LoadPrefix(bs, n - 1);
      assert bs[..n][..n - 1] == bs[..n - 1];
      LoadStepKeys(bs, n - 1, Load(bs[..n - 1]), Load(bs[..n]));
      LoadStepLast(bs, n - 1, Load(bs[..n - 1]), Load(bs[..n]));
    }
  }

  /** The loaded map holds exactly the parsed ids, and an id that no later
      building repeats maps to its building: the last write wins. */
  lemma LoadLastWins(bs: seq<Building>)
    ensures var h := Load(bs);
      && (forall k :: k in h <==> exists i :: 0 <= i < |bs| && bs[i].id == k)
      && (forall i :: 0 <= i < |bs| && (forall j :: i < j < |bs| ==> bs[j].id != bs[i].id)
            ==> bs[i].id in h && h[bs[i].id] == bs[i])
  {
    LoadPrefix(bs, |bs|);
    assert bs[..|bs|] == bs;
  }

  /** The ids of a sequence of sections, in order. */
  function Ids(ss: seq<Section>): (ids: seq<string>)
    ensures |ids| == |ss|
    ensures forall i :: 0 <= i < |ss| ==> ids[i] == ss[i].id
  {
    seq(|ss|, i requires 0 <= i < |ss| => ss[i].id)
  }

  /** What a section lends to a booking: its vehicles, then its subsections. */
  function SectionContents(s: Section): seq<string>
  {
    s.vehicles + Ids(s.subsections)
  }

  /** What a building lends to a booking: its vehicles, then its sections. */
  function BuildingContents(b: Building): seq<string>
  {
    b.vehicles + Ids(b.sections)
  }

  // ---------------------------------------------------------------------------
  // The three id scans

  ghost predicate InMatchingSection(ss: seq<Section>, id: string, c: string)
  {
    exists i :: 0 <= i < |ss| && ss[i].id == id && c in SectionContents(ss[i])
  }

  ghost predicate InMatchingSubsection(ss: seq<Section>, id: string, c: string)
  {
    exists i, j :: 0 <= i < |ss| && 0 <= j < |ss[i].subsections|
      && ss[i].subsections[j].id == id && c in ss[i].subsections[j].vehicles
  }

  /** Contents of every section of `ss` whose id is `id`, in order. */
  function MatchingSections(ss: seq<Section>, id: string): (cs: seq<string>)
    ensures forall c :: c in cs <==> InMatchingSection(ss, id, c)
  {
    if ss == [] then []
    else
      var here := if ss[0].id == id then SectionContents(ss[0]) else [];
      var rest := MatchingSections(ss[1..], id);
      assert forall c :: InMatchingSection(ss[1..], id, c) ==> InMatchingSection(ss, id, c) by {
        forall c | InMatchingSection(ss[1..], id, c)
          ensures InMatchingSection(ss, id, c)
        {
          var i :| 0 <= i < |ss[1..]| && ss[1..][i].id == id && c in SectionContents(ss[1..][i]);
          assert ss[i + 1] == ss[1..][i];
        }
      }
      assert forall c :: InMatchingSection(ss, id, c) ==> c in here || InMatchingSection(ss[1..], id, c) by {
        forall c | InMatchingSection(ss, id, c)
          ensures c in here || InMatchingSection(ss[1..], id, c)
        {
          var i :| 0 <= i < |ss| && ss[i].id == id && c in SectionContents(ss[i]);
          if i > 0 {
            assert ss[1..][i - 1] == ss[i];
          }
        }
      }
      here + rest
  }

  /** Vehicles of every subsection of `subs` whose id is `id`, in order. */
  function MatchingVehicles(subs: seq<Section>, id: string): (cs: seq<string>)
    ensures forall c :: c in cs <==> exists j :: 0 <= j < |subs| && subs[j].id == id && c in subs[j].vehicles
  {
    if subs == [] then []
    else
      var here := if subs[0].id == id then subs[0].vehicles else [];
      var rest := MatchingVehicles(subs[1..], id);
      assert forall c, j :: 0 < j < |subs| && subs[j].id == id && c in subs[j].vehicles ==> c in rest by {
        forall c, j | 0 < j < |subs| && subs[j].id == id && c in subs[j].vehicles
          ensures c in rest
        {
          assert subs[1..][j - 1] == subs[j];
        }
      }
      here + rest
  }

  /** Vehicles of every subsection, of any section of `ss`, whose id is `id`. */
  function MatchingSubsections(ss: seq<Section>, id: string): (cs: seq<string>)
    ensures forall c :: c in cs <==> InMatchingSubsection(ss, id, c)
  {
    if ss == [] then []
    else
      var here := MatchingVehicles(ss[0].subsections, id);
      var rest := MatchingSubsections(ss[1..], id);
      assert forall c :: InMatchingSubsection(ss[1..], id, c) ==> InMatchingSubsection(ss, id, c) by {
        forall c | InMatchingSubsection(ss[1..], id, c)
          ensures InMatchingSubsection(ss, id, c)
        {
          var i, j :| 0 <= i < |ss[1..]| && 0 <= j < |ss[1..][i].subsections|
            && ss[1..][i].subsections[j].id == id && c in ss[1..][i].subsections[j].vehicles;
          assert ss[i + 1] == ss[1..][i];
        }
      }
      assert forall c :: InMatchingSubsection(ss, id, c) ==> c in here || c in rest by {
        forall c | InMatchingSubsection(ss, id, c)
          ensures c in here || c in rest
        {
          var i, j :| 0 <= i < |ss| && 0 <= j < |ss[i].subsections|
            && ss[i].subsections[j].id == id && c in ss[i].subsections[j].vehicles;
          if i > 0 {
            assert ss[1..][i - 1] == ss[i];
            assert InMatchingSubsection(ss[1..], id, c);
          }
        }
      }
      here + rest
  }

  /** The section scan across the buildings named by `keys`, in that order. */
  function SectionScan(h: Hierarchy, keys: seq<string>, id: string): (cs: seq<string>)
    requires forall k :: k in keys ==> k in h
    ensures forall c :: c in cs <==> exists k :: k in keys && InMatchingSection(h[k].sections, id, c)
  {
    if keys == [] then []
    else MatchingSections(h[keys[0]].sections, id) + SectionScan(h, keys[1..], id)
  }

  /** The subsection scan across the buildings named by `keys`, in that order. */
  function SubsectionScan(h: Hierarchy, keys: seq<string>, id: string): (cs: seq<string>)
    requires forall k :: k in keys ==> k in h
    ensures forall c :: c in cs <==> exists k :: k in keys && InMatchingSubsection(h[k].sections, id, c)
  {
    if keys == [] then []
    else MatchingSubsections(h[keys[0]].sections, id) + SubsectionScan(h, keys[1..], id)
  }

  /** The resources a check or a booking of `id` descends into, in the order
      they are visited: the building's contents if `id` is a building key, then
      the contents of every section with that id in any building (buildings in
      key order), then the vehicles of every subsection with that id. */
  function Children(h: Hierarchy, id: string): (cs: seq<string>)
    ensures forall c :: c in cs <==>
      || (id in h && c in BuildingContents(h[id]))
      || (exists k :: k in h && InMatchingSection(h[k].sections, id, c))
      || (exists k :: k in h && InMatchingSubsection(h[k].sections, id, c))
  {
    var keys := SortedKeys(h);
    (if id in h then BuildingContents(h[id]) else [])
      + SectionScan(h, keys, id)
      + SubsectionScan(h, keys, id)
  }

  // ---------------------------------------------------------------------------
  // Well-formedness and rank

  ghost function SectionIds(h: Hierarchy): set<string>
  {
    set k, i | k in h && 0 <= i < |h[k].sections| :: h[k].sections[i].id
  }

  ghost function SubsectionIds(h: Hierarchy): set<string>
  {
    set k, i, j | k in h && 0 <= i < |h[k].sections| && 0 <= j < |h[k].sections[i].subsections|
      :: h[k].sections[i].subsections[j].id
  }

  /** Every vehicle a building lists, directly, in a section or in a subsection. */
  ghost function VehiclesOf(b: Building): set<string>
  {
    (set v | v in b.vehicles)
    + (set i, v | 0 <= i < |b.sections| && v in b.sections[i].vehicles :: v)
    + (set i, j, v | 0 <= i < |b.sections| && 0 <= j < |b.sections[i].subsections|
         && v in b.sections[i].subsections[j].vehicles :: v)
  }

  ghost function VehicleIds(h: Hierarchy): set<string>
  {
    set k, v | k in h && v in VehiclesOf(h[k]) :: v
  }

  /** The four kinds of id never overlap. This is what makes the
      lookup-by-id recursion terminate: without it a building listing its own
      key as a vehicle is visited forever. */
  ghost predicate WellFormed(h: Hierarchy)
  {
    && h.Keys !! SectionIds(h)
    && h.Keys !! SubsectionIds(h)
    && h.Keys !! VehicleIds(h)
    && SectionIds(h) !! SubsectionIds(h)
    && SectionIds(h) !! VehicleIds(h)
    && SubsectionIds(h) !! VehicleIds(h)
  }

  /** Height of an id in the hierarchy: building 3, section 2, subsection 1,
      vehicle or unknown 0. */
  ghost function Rank(h: Hierarchy, id: string): nat
  {
    if id in h then 3
    else if id in SectionIds(h) then 2
    else if id in SubsectionIds(h) then 1
    else 0
  }

  lemma BuildingChildRank(h: Hierarchy, id: string, c: string)
    requires WellFormed(h)
    requires id in h && c in BuildingContents(h[id])
    ensures Rank(h, c) < Rank(h, id)
  {
    if c in h[id].vehicles {
      assert c in VehiclesOf(h[id]);
      assert c in VehicleIds(h);
    } else {
      var i :| 0 <= i < |h[id].sections| && Ids(h[id].sections)[i] == c;
      assert c in SectionIds(h);
    }
  }

  lemma SectionChildRank(h: Hierarchy, id: string, c: string, k: string)
    requires WellFormed(h)
    requires k in h && InMatchingSection(h[k].sections, id, c)
    ensures Rank(h, c) < Rank(h, id)
  {
    var i :| 0 <= i < |h[k].sections| && h[k].sections[i].id == id && c in SectionContents(h[k].sections[i]);
    assert id in SectionIds(h);
    if c in h[k].sections[i].vehicles {
      assert c in VehiclesOf(h[k]);
      assert c in VehicleIds(h);
    } else {
      var j :| 0 <= j < |h[k].sections[i].subsections| && Ids(h[k].sections[i].subsections)[j] == c;
      assert c in SubsectionIds(h);
    }
  }

  lemma SubsectionChildRank(h: Hierarchy, id: string, c: string, k: string)
    requires WellFormed(h)
    requires k in h && InMatchingSubsection(h[k].sections, id, c)
    ensures Rank(h, c) < Rank(h, id)
  {
    var i, j :| 0 <= i < |h[k].sections| && 0 <= j < |h[k].sections[i].subsections|
      && h[k].sections[i].subsections[j].id == id && c in h[k].sections[i].subsections[j].vehicles;
    assert id in SubsectionIds(h);
    assert c in VehiclesOf(h[k]);
    assert c in VehicleIds(h);
  }

  /** Every child sits strictly lower than its parent. */
  lemma ChildrenRank(h: Hierarchy, id: string)
    requires WellFormed(h)
    ensures forall c :: c in Children(h, id) ==> Rank(h, c) < Rank(h, id)
  {
    forall c | c in Children(h, id)
      ensures Rank(h, c) < Rank(h, id)
    {
      if id in h && c in BuildingContents(h[id]) {
        BuildingChildRank(h, id, c);
      } else if k :| k in h && InMatchingSection(h[k].sections, id, c) {
        SectionChildRank(h, id, c, k);
      } else {
        var k :| k in h && InMatchingSubsection(h[k].sections, id, c);
        SubsectionChildRank(h, id, c, k);
      }
    }
  }

  lemma {:induction false} NoMatchingSections(ss: seq<Section>, id: string)
    requires forall i :: 0 <= i < |ss| ==> ss[i].id != id
    ensures MatchingSections(ss, id) == []
  {
    if ss != [] {
      NoMatchingSections(ss[1..], id);
    }
  }

  lemma {:induction false} NoMatchingVehicles(subs: seq<Section>, id: string)
    requires forall j :: 0 <= j < |subs| ==> subs[j].id != id
    ensures MatchingVehicles(subs, id) == []
  {
    if subs != [] {
      NoMatchingVehicles(subs[1..], id);
    }
  }

  lemma {:induction false} NoMatchingSubsections(ss: seq<Section>, id: string)
    requires forall i, j :: 0 <= i < |ss| && 0 <= j < |ss[i].subsections| ==> ss[i].subsections[j].id != id
    ensures MatchingSubsections(ss, id) == []
  {
    if ss != [] {
      NoMatchingVehicles(ss[0].subsections, id);
      NoMatchingSubsections(ss[1..], id);
    }
  }

  lemma {:induction false} NoSectionScan(h: Hierarchy, keys: seq<string>, id: string)
    requires forall k :: k in keys ==> k in h
    requires id !in SectionIds(h)
    ensures SectionScan(h, keys, id) == []
  {
    if keys != [] {
      var k := keys[0];
      forall i | 0 <= i < |h[k].sections|
        ensures h[k].sections[i].id != id
      {
        assert h[k].sections[i].id in SectionIds(h);
      }
      NoMatchingSections(h[k].sections, id);
      NoSectionScan(h, keys[1..], id);
    }
  }

  lemma {:induction false} NoSubsectionScan(h: Hierarchy, keys: seq<string>, id: string)
    requires forall k :: k in keys ==> k in h
    requires id !in SubsectionIds(h)
    ensures SubsectionScan(h, keys, id) == []
  {
    if keys != [] {
      var k := keys[0];
      forall i, j | 0 <= i < |h[k].sections| && 0 <= j < |h[k].sections[i].subsections|
        ensures h[k].sections[i].subsections[j].id != id
      {
        assert h[k].sections[i].subsections[j].id in SubsectionIds(h);
      }
      NoMatchingSubsections(h[k].sections, id);
      NoSubsectionScan(h, keys[1..], id);
    }
  }

  /** An id that is neither a building key nor a section or subsection id has
      nothing under it. */
  lemma LeafHasNoChildren(h: Hierarchy, id: string)
    requires id !in h && id !in SectionIds(h) && id !in SubsectionIds(h)
    ensures Children(h, id) == []
  {
    NoSectionScan(h, SortedKeys(h), id);
    NoSubsectionScan(h, SortedKeys(h), id);
  }

  // ---------------------------------------------------------------------------
  // Transitive contents

  /** `id` and every resource transitively below it. */
  ghost function Subtree(h: Hierarchy, id: string): set<string>
    requires WellFormed(h)
    decreases Rank(h, id), 1
  {
    ChildrenRank(h, id);
    {id} + Subtrees(h, Children(h, id), Rank(h, id))
  }

  /** The union of the subtrees of `cs`; `bound` is a rank above all of them. */
  ghost function Subtrees(h: Hierarchy, cs: seq<string>, bound: nat): set<string>
    requires WellFormed(h)
    requires forall c :: c in cs ==> Rank(h, c) < bound
    decreases bound, 0, |cs|
  {
    if cs == [] then {} else Subtree(h, cs[0]) + Subtrees(h, cs[1..], bound)
  }
}
