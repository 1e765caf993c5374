/**
 * The second smart navigation service (src/app/core/services/smart-navigation.service.ts):
 * the active section follows the page section that an intersection observer
 * reports in the middle of the viewport.
 */
module SmartNavigationService {
  import opened Options
  import opened NavigationModel

  /** The service's state: only the active section (the item table is constant). */
  datatype NavService = NavService(activeSection: NavigationSection)

  /** The start section is active at first. */
  const InitialNavService := NavService(Start)

  /** `setActiveSection`. */
  function SetActiveSection(s: NavService, section: NavigationSection): (t: NavService)
    ensures t.activeSection == section
  {
    s.(activeSection := section)
  }

  /** `findItemByTarget`: the unique item for each of the two section ids, nothing for any other id. */
  function FindItem(targetId: string): (r: Option<NavigationItem>)
    ensures r.Some? ==> r.value in NavigationItems && r.value.targetId.Id() == targetId
    ensures targetId == Welcome.Id() ==> r == Some(StartItem)
    ensures targetId == PlanetsList.Id() ==> r == Some(PlanetsItem)
    ensures r.None? <==> targetId != Welcome.Id() && targetId != PlanetsList.Id()
  {
    ItemTableLookup(targetId);
    FindItemByTarget(NavigationItems, targetId)
  }

  /** What `handleIntersection` reads of an observer entry: whether it intersects, and its element id. */
  datatype Entry = Entry(isIntersecting: bool, targetId: string)

  /** An entry that changes the active section: intersecting, with the id of a known section. */
  predicate Selects(e: Entry) {
    e.isIntersecting && FindItem(e.targetId).Some?
  }

  /** The section an entry's id belongs to. */
  function SectionOf(e: Entry): NavigationSection
    requires Selects(e)
  {
    FindItem(e.targetId).value.id
  }

  /**
   * One entry of `handleIntersection`: an intersecting entry whose id finds
   * an item makes that item's section active; any other entry changes nothing.
   */
  function Observe(t: NavService, e: Entry): (u: NavService)
    ensures Selects(e) ==> u.activeSection == SectionOf(e)
    ensures !Selects(e) ==> u == t
  {
    if e.isIntersecting then
      match FindItem(e.targetId)
      case Some(item) => SetActiveSection(t, item.id)
      case None => t
    else t
  }

  /** The entries observed in order, from the state `s`. */
  function ObserveAll(s: NavService, entries: seq<Entry>): NavService
    decreases |entries|
  {
    if |entries| == 0 then s
    else Observe(ObserveAll(s, entries[..|entries| - 1]), entries[|entries| - 1])
  }

  /** Position of the last entry that selects a section, or -1 when none does. */
  function LastSelecting(entries: seq<Entry>): (r: int)
    ensures -1 <= r < |entries|
    ensures r >= 0 ==> Selects(entries[r])
    ensures forall j :: r < j < |entries| ==> !Selects(entries[j])
    decreases |entries|
  {
    if |entries| == 0 then -1
    else if Selects(entries[|entries| - 1]) then |entries| - 1
    else
      var r := LastSelecting(entries[..|entries| - 1]);
      assert forall j :: r < j < |entries| - 1 ==> entries[..|entries| - 1][j] == entries[j];
      r
  }

  /**
   * After the entries, the active section is that of the last entry that
   * selects one; when none does, the state is unchanged.
   */
  lemma {:induction false} LastSelectorWins(s: NavService, entries: seq<Entry>)
    ensures LastSelecting(entries) < 0 ==> ObserveAll(s, entries) == s
    ensures LastSelecting(entries) >= 0 ==>
      ObserveAll(s, entries).activeSection == SectionOf(entries[LastSelecting(entries)])
    decreases |entries|
  {
    if |entries| > 0 {
      var n := |entries| - 1;
      var front := entries[..n];
      if !Selects(entries[n]) {
        LastSelectorWins(s, front);
        var i := LastSelecting(front);
        assert i >= 0 ==> front[i] == entries[i];
      }
    }
  }

  /**
   * `handleIntersection`: the entries are observed in order. The result is
   * therefore the section of the last entry that selects one, or the old
   * state when none does.
   */
  method HandleIntersection(s: NavService, entries: seq<Entry>) returns (t: NavService)
    ensures LastSelecting(entries) < 0 ==> t == s
    ensures LastSelecting(entries) >= 0 ==> t.activeSection == SectionOf(entries[LastSelecting(entries)])
  {
    t := s;
    var k := 0;
    while k < |entries|
      invariant 0 <= k <= |entries|
      invariant t == ObserveAll(s, entries[..k])
    {
      assert entries[..k + 1][..k] == entries[..k];
      t := Observe(t, entries[k]);
      k := k + 1;
    }
    assert entries[..k] == entries;
    LastSelectorWins(s, entries);
  }
}
