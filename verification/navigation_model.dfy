/**
 * The navigation items of the landing page (src/app/core/models/navigation.model.ts)
 * and the two-entry item table both smart-navigation services hold.
 */
module NavigationModel {
  import opened Options

  /** `NavigationSection`. */
  datatype NavigationSection = Start | Planets

  /** `NavigationTarget`: the element ids of the two page sections. */
  datatype NavigationTarget = Welcome | PlanetsList {
    function Id(): string {
      match this
      case Welcome => "welcome-section"
      case PlanetsList => "planets-list-section"
    }
  }

  /** `NavigationItem` without the optional icon and shortcut, which no item sets; `caption` is its `label`. */
  datatype NavigationItem = NavigationItem(
    id: NavigationSection, caption: string, ariaLabel: string, targetId: NavigationTarget)

  const StartItem := NavigationItem(Start, "Start", "Navigate to welcome section", Welcome)
  const PlanetsItem := NavigationItem(Planets, "Planets", "Navigate to planets list section", PlanetsList)

  /** `_navigationItems`: start first, then planets. */
  const NavigationItems: seq<NavigationItem> := [StartItem, PlanetsItem]

  /** Position of the first item whose target has the given id. */
  function FindItemIndex(items: seq<NavigationItem>, targetId: string): (r: Option<nat>)
    ensures r.Some? ==> r.value < |items| && items[r.value].targetId.Id() == targetId
    ensures r.Some? ==> forall j :: 0 <= j < r.value ==> items[j].targetId.Id() != targetId
    ensures r.None? <==> forall j :: 0 <= j < |items| ==> items[j].targetId.Id() != targetId
    decreases |items|
  {
    if |items| == 0 then None
    else if items[0].targetId.Id() == targetId then Some(0)
    else
      match FindItemIndex(items[1..], targetId)
      case None => None
      case Some(k) => Some(k + 1)
  }

  /**
   * `items.find(item => item.targetId === targetId)`: the first item whose
   * target has the given id, or None when no item has it.
   */
  function FindItemByTarget(items: seq<NavigationItem>, targetId: string): (r: Option<NavigationItem>)
    ensures r.Some? ==> r.value in items && r.value.targetId.Id() == targetId
    ensures r.None? <==> forall j :: 0 <= j < |items| ==> items[j].targetId.Id() != targetId
    ensures r.Some? ==>
      exists k :: 0 <= k < |items| && items[k] == r.value && forall j :: 0 <= j < k ==> items[j].targetId.Id() != targetId
  {
    match FindItemIndex(items, targetId)
    case None => None
    case Some(k) => Some(items[k])
  }

  /** Each section's item is the one its target's id finds, and no other id finds an item. */
  lemma ItemTableLookup(targetId: string)
    ensures FindItemByTarget(NavigationItems, Welcome.Id()) == Some(StartItem)
    ensures FindItemByTarget(NavigationItems, PlanetsList.Id()) == Some(PlanetsItem)
    ensures FindItemByTarget(NavigationItems, targetId).Some? <==> targetId == Welcome.Id() || targetId == PlanetsList.Id()
  {
    assert NavigationItems[0] == StartItem && NavigationItems[1] == PlanetsItem;
    assert Welcome.Id() != PlanetsList.Id() by { assert Welcome.Id()[0] != PlanetsList.Id()[0]; }
  }

  /** The table holds one item per section, and the item of a section is the one the section's target finds. */
  lemma ItemTableIsOnePerSection(section: NavigationSection)
    ensures exists k :: 0 <= k < |NavigationItems| && NavigationItems[k].id == section
    ensures forall i, j :: 0 <= i < j < |NavigationItems| ==> NavigationItems[i].id != NavigationItems[j].id
    ensures forall i, j :: 0 <= i < j < |NavigationItems| ==> NavigationItems[i].targetId != NavigationItems[j].targetId
  {
    if section == Start { assert NavigationItems[0].id == section; }
    else { assert NavigationItems[1].id == section; }
  }
}
