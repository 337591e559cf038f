/** A worked example: one building `B1` holding section `S1`, which holds
    subsection `SS1`, which holds vehicle `V1`; a batch of queries against
    it and the replies they get. */
module Scenario {
  import opened Results
  import opened Resources
  import opened Bookings
  import opened Booker
  import opened Queries

  function Example(): (h: Hierarchy)
    ensures h.Keys == {"B1"}
  {
    map["B1" := Building("B1", [Section("S1", [Section("SS1", [], ["V1"])], [])], [])]
  }

  /** The example's ids, level by level; they never overlap. */
  lemma ExampleWellFormed()
    ensures SectionIds(Example()) == {"S1"}
    ensures SubsectionIds(Example()) == {"SS1"}
    ensures VehicleIds(Example()) == {"V1"}
    ensures WellFormed(Example())
  {
    var h := Example();
    var b := h["B1"];
    assert b.sections[0].id == "S1";
    assert "S1" in SectionIds(h);
    assert b.sections[0].subsections[0].id == "SS1";
    assert "SS1" in SubsectionIds(h);
    assert "V1" in b.sections[0].subsections[0].vehicles;
    assert "V1" in VehiclesOf(b);
    assert VehiclesOf(b) == {"V1"};
    assert "V1" in VehicleIds(h);
  }

  /** `S1` is a section of `B1`. */
  lemma BuildingHoldsSection()
    ensures "S1" in Children(Example(), "B1")
  {
    var b := Example()["B1"];
    assert Ids(b.sections)[0] == "S1";
    assert "S1" in BuildingContents(b);
  }

  /** `SS1` is a subsection of `S1`. */
  lemma SectionHoldsSubsection()
    ensures "SS1" in Children(Example(), "S1")
  {
    var ss := Example()["B1"].sections;
    assert Ids(ss[0].subsections)[0] == "SS1";
    assert ss[0].id == "S1" && "SS1" in SectionContents(ss[0]);
    assert InMatchingSection(ss, "S1", "SS1");
  }

  /** `V1` is a vehicle of `SS1`. */
  lemma SubsectionHoldsVehicle()
    ensures "V1" in Children(Example(), "SS1")
  {
    var ss := Example()["B1"].sections;
    assert ss[0].subsections[0].id == "SS1" && "V1" in ss[0].subsections[0].vehicles;
    assert InMatchingSubsection(ss, "SS1", "V1");
  }

  /** `V1` is a leaf. */
  lemma VehicleIsLeaf()
    requires WellFormed(Example())
    ensures Subtree(Example(), "V1") == {"V1"}
  {
    ExampleWellFormed();
    LeafHasNoChildren(Example(), "V1");
  }

  /** The containment chain `B1` > `S1` > `SS1` > `V1`. */
  lemma ExampleSubtrees()
    requires WellFormed(Example())
    ensures {"B1", "S1", "SS1", "V1"} <= Subtree(Example(), "B1")
  {
    var h := Example();
    BuildingHoldsSection();
    SectionHoldsSubsection();
    SubsectionHoldsVehicle();
    ChildSubtree(h, "B1");
    ChildSubtree(h, "S1");
    ChildSubtree(h, "SS1");
    assert "V1" in Subtree(h, "V1") by {
      VehicleIsLeaf();
    }
  }

  /** The words of the example batch: the four ids down the chain and the
      two dates. */
  datatype Words = Words(building: string, section: string, subsection: string, vehicle: string,
                         day1: string, day2: string)

  /** Words a query line can carry: no whitespace, none empty; the building
      is not the vehicle and the days differ. */
  predicate Plain(w: Words)
  {
    && NoSpace(w.building) && NoSpace(w.section) && NoSpace(w.subsection) && NoSpace(w.vehicle)
    && NoSpace(w.day1) && NoSpace(w.day2)
    && w.building != [] && w.vehicle != [] && w.subsection != [] && w.day1 != [] && w.day2 != []
    && w.building != w.vehicle && w.day1 != w.day2
  }

  /** What the replies depend on: the vehicle is a leaf, and the building's
      subtree holds the whole chain. */
  ghost predicate Shaped(h: Hierarchy, w: Words)
  {
    && WellFormed(h)
    && Subtree(h, w.vehicle) == {w.vehicle}
    && {w.building, w.section, w.subsection, w.vehicle} <= Subtree(h, w.building)
  }

  function ExampleWords(): Words
  {
    Words("B1", "S1", "SS1", "V1", "2024-01-01", "2024-01-02")
  }

  lemma ExamplePlain()
    ensures Plain(ExampleWords())
  {
  }

  lemma ExampleShaped()
    ensures Shaped(Example(), ExampleWords())
  {
    ExampleWellFormed();
    VehicleIsLeaf();
    ExampleSubtrees();
  }

  /** The ledger after the vehicle is booked on the first day. */
  function FirstDay(h: Hierarchy, w: Words): Ledger
    requires WellFormed(h)
  {
    Book(h, map[], w.vehicle, w.day1).ledger
  }

  /** The ledger after the building is then booked on the second day. */
  function SecondDay(h: Hierarchy, w: Words): Ledger
    requires WellFormed(h)
  {
    Book(h, FirstDay(h, w), w.building, w.day2).ledger
  }

  /** The example's bookings, query by query: the vehicle booked on the
      first day blocks its building that day but not the next. */
  lemma BookingScenario(h: Hierarchy, w: Words)
    requires Shaped(h, w) && Plain(w)
    ensures var l1 := FirstDay(h, w);
      && IsAvailable(h, map[], w.building, w.day1) == Yes
      && Book(h, map[], w.vehicle, w.day1).reply == Ok
      && IsAvailable(h, l1, w.building, w.day1) == No
      && IsAllBooked(h, l1, w.building, w.day1) == Yes
      && Book(h, l1, w.building, w.day1) == Step(l1, Failed)
      && IsBooked(l1, w.building, w.day1) == No
      && Book(h, l1, w.building, w.day2).reply == Ok
      && IsBooked(SecondDay(h, w), w.subsection, w.day2) == Yes
  {
    var d1, d2 := w.day1, w.day2;
    var l1 := FirstDay(h, w);
    assert AppendsOnly(map[], l1, d1, {w.vehicle}) && Covers(l1, d1, {w.vehicle});
    assert IsDirectlyBooked(l1, w.vehicle, d1);
    assert !FreeOn(l1, Subtree(h, w.building), d1);
    AppendsOnlyOutside(map[], l1, d1, {w.vehicle}, w.building, d1);
    AppendsOnlyOtherDate(map[], l1, d1, {w.vehicle}, d2);
    assert FreeOn(l1, Subtree(h, w.building), d2);
    BookOkThenBooked(h, l1, w.building, d2);
  }

  /** A query line: command, id and date separated by single spaces. */
  function Line(command: string, id: string, date: string): string
  {
    command + " " + id + " " + date
  }

  lemma LineParses(command: string, id: string, date: string)
    requires NoSpace(command) && NoSpace(id) && NoSpace(date)
    requires command != [] && id != [] && date != [] && command[0] != '#'
    ensures !Ignored(Line(command, id, date))
    ensures Parse(Line(command, id, date)) == Query(command, id, date)
  {
    ParseRoundTrip([], command, " ", id, " ", date, []);
    assert [] + command == command;
    assert Line(command, id, date) + [] == Line(command, id, date);
    assert Line(command, id, date)[0] == command[0];
  }

  /** The command words hold no whitespace. */
  lemma CommandWords()
    ensures NoSpace("is_available") && NoSpace("is_all_booked") && NoSpace("is_booked") && NoSpace("book")
  {
  }

  /** A line with a supported command is answered as its query is. */
  lemma LineAnswers(h: Hierarchy, l: Ledger, command: string, id: string, date: string, s: Step)
    requires WellFormed(h)
    requires NoSpace(command) && NoSpace(id) && NoSpace(date)
    requires id != [] && date != [] && IsCommand(command)
    requires Execute(h, l, Query(command, id, date)) == Success(s)
    ensures ProcessLine(h, l, Line(command, id, date)) == Success(Run([s.reply], s.ledger))
  {
    LineParses(command, id, date);
  }

  /** The first day's lines on their own, against the ledger each meets. */
  lemma FirstDayAnswers(h: Hierarchy, w: Words)
    requires Shaped(h, w) && Plain(w)
    ensures var l1 := FirstDay(h, w);
      && ProcessLine(h, map[], Line("is_available", w.building, w.day1)) == Success(Run([Yes], map[]))
      && ProcessLine(h, map[], Line("book", w.vehicle, w.day1)) == Success(Run([Ok], l1))
      && ProcessLine(h, l1, Line("is_available", w.building, w.day1)) == Success(Run([No], l1))
      && ProcessLine(h, l1, Line("is_all_booked", w.building, w.day1)) == Success(Run([Yes], l1))
  {
    BookingScenario(h, w);
    CommandWords();
    var l1 := FirstDay(h, w);
    LineAnswers(h, map[], "is_available", w.building, w.day1, Step(map[], Yes));
    LineAnswers(h, map[], "book", w.vehicle, w.day1, Step(l1, Ok));
    LineAnswers(h, l1, "is_available", w.building, w.day1, Step(l1, No));
    LineAnswers(h, l1, "is_all_booked", w.building, w.day1, Step(l1, Yes));
  }

  /** The remaining lines on their own, against the ledger each meets. */
  lemma LaterAnswers(h: Hierarchy, w: Words)
    requires Shaped(h, w) && Plain(w)
    ensures var l1, l2 := FirstDay(h, w), SecondDay(h, w);
      && ProcessLine(h, l1, Line("book", w.building, w.day1)) == Success(Run([Failed], l1))
      && ProcessLine(h, l1, Line("is_booked", w.building, w.day1)) == Success(Run([No], l1))
      && ProcessLine(h, l1, Line("book", w.building, w.day2)) == Success(Run([Ok], l2))
      && ProcessLine(h, l2, Line("is_booked", w.subsection, w.day2)) == Success(Run([Yes], l2))
  {
    BookingScenario(h, w);
    CommandWords();
    var l1, l2 := FirstDay(h, w), SecondDay(h, w);
    LineAnswers(h, l1, "book", w.building, w.day1, Step(l1, Failed));
    LineAnswers(h, l1, "is_booked", w.building, w.day1, Step(l1, No));
    LineAnswers(h, l1, "book", w.building, w.day2, Step(l2, Ok));
    LineAnswers(h, l2, "is_booked", w.subsection, w.day2, Step(l2, Yes));
  }

  /** The example hierarchy gives the replies stated in BookingScenario;
      line by line they follow from FirstDayAnswers and LaterAnswers with
      ExamplePlain and ExampleShaped. */
  lemma ExampleBookings()
    ensures WellFormed(Example())
    ensures var h, w := Example(), ExampleWords();
      && IsAvailable(h, map[], "B1", "2024-01-01") == Yes
      && Book(h, map[], "V1", "2024-01-01").reply == Ok
      && IsAvailable(h, FirstDay(h, w), "B1", "2024-01-01") == No
      && IsAllBooked(h, FirstDay(h, w), "B1", "2024-01-01") == Yes
      && Book(h, FirstDay(h, w), "B1", "2024-01-01") == Step(FirstDay(h, w), Failed)
      && IsBooked(FirstDay(h, w), "B1", "2024-01-01") == No
      && Book(h, FirstDay(h, w), "B1", "2024-01-02").reply == Ok
      && IsBooked(SecondDay(h, w), "SS1", "2024-01-02") == Yes
  {
    ExamplePlain();
    ExampleShaped();
    BookingScenario(Example(), ExampleWords());
  }
}
