/**
 * The prospecting pick item: its tool-mode menu, loaded once, and what it
 * does when the player finishes breaking a block with it: pick one of the
 * three probes from the resolved tool mode and the configured node search
 * radius, run it, and wear the tool down.
 */
module PropickFix {
  import opened Wrappers
  import opened Host
  import opened ToolModes
  import opened CoreSample

  /** The probe a completed break runs. */
  datatype Probe = DensitySearch | CoreSampleSearch | NodeSearch

  /** The causes of wear an item can be configured to take damage from. */
  datatype DamageSource = BlockBreaking | Attacking | Fire

  /**
   * The probe for a resolved mode: node search only for mode 2 while the
   * radius is positive, core sample for mode 1, density search otherwise.
   */
  function SelectProbe(toolMode: int, radius: int): (p: Probe)
    ensures p == NodeSearch <==> toolMode == 2 && radius > 0
    ensures p == CoreSampleSearch <==> toolMode == 1
    ensures p == DensitySearch <==> toolMode != 1 && (toolMode != 2 || radius <= 0)
  {
    if toolMode == 2 && radius > 0 then NodeSearch
    else if toolMode == 1 then CoreSampleSearch
    else DensitySearch
  }

  /** Node search wears the tool twice as fast as the other probes. */
  function ProbeDamage(p: Probe): (damage: nat)
    ensures damage == 2 <==> p == NodeSearch
    ensures damage == 1 <==> p != NodeSearch
  {
    if p == NodeSearch then 2 else 1
  }

  /** Whether the item's configured damage sources include block breaking (none configured: no). */
  function DamagedByBreaking(damagedBy: Option<seq<DamageSource>>): (r: bool)
    ensures r <==> damagedBy.Some? && BlockBreaking in damagedBy.value
  {
    match damagedBy
    case None => false
    case Some(sources) => BlockBreaking in sources
  }

  /** The item stack in a slot: its stored tool mode and the wear it has taken. */
  class ItemSlot {
    var toolMode: int
    var damageTaken: nat

    constructor (toolMode: int)
      ensures this.toolMode == toolMode && damageTaken == 0
    {
      this.toolMode := toolMode;
      damageTaken := 0;
    }
  }

  class ItemPropickFix {
    /** The tool-mode menu, absent until the item is loaded. */
    var toolModes: Option<seq<SkillItem>>
    /** The damage sources the item is configured with, if any. */
    const damagedBy: Option<seq<DamageSource>>

    constructor (damagedBy: Option<seq<DamageSource>>)
      ensures toolModes == None && this.damagedBy == damagedBy
    {
      toolModes := None;
      this.damagedBy := damagedBy;
    }

    /** Builds the menu from the configured node search radius. */
    method OnLoaded(radius: int)
      modifies this
      ensures toolModes == Some(AvailableModes(radius))
    {
      toolModes := Some(AvailableModes(radius));
    }

    /**
     * A completed break: resolve the slot's mode against the menu, run the
     * probe it selects with the radius configured now, then, if the item
     * takes damage from block breaking, wear the slot's stack by that
     * probe's damage. Always reports the break as handled.
     */
    method OnBlockBrokenWith(world: World, broken: World, byEntity: Entity, slot: ItemSlot, sel: BlockSel, radius: int)
      returns (handled: bool, events: seq<Event>)
      requires toolModes.Some?
      requires byEntity.EntityPlayer?
      modifies slot
      ensures handled
      ensures var probe := SelectProbe(GetToolMode(toolModes.value, old(slot.toolMode)), radius);
        && events == (match probe
                      case NodeSearch => [NodeProbe(sel, radius)]
                      case CoreSampleSearch => CoreSampleEvents(world, broken, byEntity, sel)
                      case DensitySearch => [DensityProbe(sel)])
        && slot.damageTaken == old(slot.damageTaken) + (if DamagedByBreaking(damagedBy) then ProbeDamage(probe) else 0)
      ensures slot.toolMode == old(slot.toolMode)
    {
      var toolMode := GetToolMode(toolModes.value, slot.toolMode);
      var damage := 1;

      if toolMode == 2 && radius > 0 {
        events := [NodeProbe(sel, radius)];
        damage := 2;
      } else if toolMode == 1 {
        events := ProbeCoreSampleMode(world, broken, byEntity, sel);
      } else {
        events := [DensityProbe(sel)];
      }

      if damagedBy.Some? && BlockBreaking in damagedBy.value {
        slot.damageTaken := slot.damageTaken + damage;
      }

      handled := true;
    }
  }

  // ---------------------------------------------------------------------
  // How the stored mode, the menu and the radius decide the probe.

  /**
   * With the menu built from the same radius that is configured at break
   * time, the stored mode number alone decides the probe: 2 or more runs
   * node search when the radius is positive, 1 or more runs the core sample
   * otherwise (the menu has only two entries), and anything below 1 runs
   * density search.
   */
  lemma ProbeForStoredMode(radius: int, stored: int)
    ensures SelectProbe(GetToolMode(AvailableModes(radius), stored), radius)
      == if radius > 0 && stored >= 2 then NodeSearch
         else if stored >= 1 then CoreSampleSearch
         else DensitySearch
  {
  }

  /**
   * With the menu built from the radius configured at break time, the probe
   * run is the one the selected menu entry names.
   */
  lemma ProbeMatchesMenu(radius: int, stored: int)
    requires stored >= 0
    ensures var modes := AvailableModes(radius);
      var mode := GetToolMode(modes, stored);
      && 0 <= mode < |modes|
      && (modes[mode].code == "density" <==> SelectProbe(mode, radius) == DensitySearch)
      && (modes[mode].code == "core" <==> SelectProbe(mode, radius) == CoreSampleSearch)
      && (modes[mode].code == "node" <==> SelectProbe(mode, radius) == NodeSearch)
  {
  }

  /**
   * A menu built while the radius was positive, read after the radius has
   * dropped to zero or below: a stored node-search mode falls back to
   * density search with single damage.
   */
  lemma StaleNodeModeFallsBack(loadRadius: int, radius: int, stored: int)
    requires loadRadius > 0 && radius <= 0 && stored >= 2
    ensures GetToolMode(AvailableModes(loadRadius), stored) == 2
    ensures SelectProbe(GetToolMode(AvailableModes(loadRadius), stored), radius) == DensitySearch
    ensures ProbeDamage(SelectProbe(GetToolMode(AvailableModes(loadRadius), stored), radius)) == 1
  {
  }

  /** A negative stored mode is not clamped from below and selects density search. */
  lemma NegativeModeIsDensity(modes: seq<SkillItem>, stored: int, radius: int)
    requires stored < 0
    ensures |modes| >= 1 ==> GetToolMode(modes, stored) == stored
    ensures |modes| >= 1 ==> SelectProbe(GetToolMode(modes, stored), radius) == DensitySearch
  {
  }
}
