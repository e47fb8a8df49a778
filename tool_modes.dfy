/**
 * The prospecting pick's tool-mode menu and the resolution of the mode
 * number stored on an item stack into a position in that menu.
 */
module ToolModes {

  /** A menu entry: its code and its (untranslated) display name. */
  datatype SkillItem = SkillItem(code: string, name: string)

  const DensityMode := SkillItem("density", "Density Search Mode (Long range, chance based search)")
  const CoreMode := SkillItem("core", "Core Sample Mode (Searches in a straight line)")
  const NodeMode := SkillItem("node", "Node Search Mode (Short range, exact search)")

  /**
   * The menu built on load: density and core sample always, node search
   * third only when the configured node search radius is positive.
   */
  function AvailableModes(radius: int): (modes: seq<SkillItem>)
    ensures |modes| == 2 || |modes| == 3
    ensures |modes| == 3 <==> radius > 0
    ensures modes[0] == DensityMode && modes[1] == CoreMode
    ensures |modes| == 3 ==> modes[2] == NodeMode
  {
    if radius > 0 then [DensityMode, CoreMode, NodeMode] else [DensityMode, CoreMode]
  }

  /**
   * The stored mode number clamped from above to the last menu position;
   * there is no lower clamp.
   */
  function GetToolMode(modes: seq<SkillItem>, stored: int): (mode: int)
    ensures mode <= |modes| - 1 && mode <= stored
    ensures mode == stored || mode == |modes| - 1
  {
    if stored < |modes| - 1 then stored else |modes| - 1
  }

  /** A non-negative stored number resolves to a menu position; a negative one passes through. */
  lemma GetToolModeRange(modes: seq<SkillItem>, stored: int)
    requires modes != []
    ensures 0 <= stored ==> 0 <= GetToolMode(modes, stored) < |modes|
    ensures stored < 0 ==> GetToolMode(modes, stored) == stored
    ensures stored < |modes| ==> GetToolMode(modes, stored) == stored
  {
  }

  /** The menu codes are distinct, so a menu position names one probing mode. */
  lemma ModeCodesDistinct(radius: int)
    ensures var modes := AvailableModes(radius);
      forall i, j :: 0 <= i < j < |modes| ==> modes[i].code != modes[j].code
  {
  }
}
