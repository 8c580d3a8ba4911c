/**
 * The decisions a tool card makes (src/components/ToolCallCard.tsx): which
 * of the five tool kinds a tool name denotes, and which of the status-driven
 * parts of the card appear.
 */
module ToolCallCard {
  import opened ChatTypes
  import opened Text

  /** The keys of the icon and colour tables (the `ToolType` names of src/types/chat.ts). */
  datatype ToolKey = Weather | Calculator | ImageGenerator | DatabaseQuery | FileOperations

  function KeyName(k: ToolKey): (name: string)
    ensures name in {"weather", "calculator", "image_generator", "database_query", "file_operations"}
  {
    match k
    case Weather => "weather"
    case Calculator => "calculator"
    case ImageGenerator => "image_generator"
    case DatabaseQuery => "database_query"
    case FileOperations => "file_operations"
  }

  /** `getToolKey`: keyword tests on the lower-cased name, first match wins. */
  function GetToolKey(toolName: string): ToolKey {
    var lowerName := ToLower(toolName);
    if Contains(lowerName, "weather") then Weather
    else if Contains(lowerName, "calculator") || Contains(lowerName, "calc") then Calculator
    else if Contains(lowerName, "image") then ImageGenerator
    else if Contains(lowerName, "database") || Contains(lowerName, "db") then DatabaseQuery
    else if Contains(lowerName, "file") then FileOperations
    else FileOperations
  }

  /** The key depends on the name only up to letter case. */
  lemma GetToolKeyIgnoresCase(toolName: string)
    ensures GetToolKey(ToUpper(toolName)) == GetToolKey(toolName)
    ensures GetToolKey(ToLower(toolName)) == GetToolKey(toolName)
  {
    LowerOfUpper(toolName);
    LowerIdempotent(toolName);
  }

  /**
   * The priority order, each key stated by the keywords it needs and the
   * earlier keywords it must lack: weather, then calc (which every
   * "calculator" contains), then image, then database or db; everything
   * else, "file" or not, is a file operation.
   */
  lemma GetToolKeyPriority(toolName: string)
    ensures var n := ToLower(toolName);
      && (GetToolKey(toolName) == Weather <==> Contains(n, "weather"))
      && (GetToolKey(toolName) == Calculator <==> !Contains(n, "weather") && Contains(n, "calc"))
      && (GetToolKey(toolName) == ImageGenerator <==>
            !Contains(n, "weather") && !Contains(n, "calc") && Contains(n, "image"))
      && (GetToolKey(toolName) == DatabaseQuery <==>
            !Contains(n, "weather") && !Contains(n, "calc") && !Contains(n, "image")
            && (Contains(n, "database") || Contains(n, "db")))
      && (GetToolKey(toolName) == FileOperations <==>
            !Contains(n, "weather") && !Contains(n, "calc") && !Contains(n, "image")
            && !Contains(n, "database") && !Contains(n, "db"))
  {
    var n := ToLower(toolName);
    if Contains(n, "calculator") {
      ContainsPrefixOf(n, "calculator", "calc");
    }
  }

  /** An example: the name "Weather_DB", holding both "weather" and "db" up to case, is a weather tool. */
  lemma WeatherBeatsDatabase()
    ensures GetToolKey("Weather_DB") == Weather
  {
    var n := ToLower("Weather_DB");
    assert n == "weather_db" by {
      assert forall k :: 0 <= k < |n| ==> n[k] == "weather_db"[k];
    }
    assert StartsWith(n, "weather");
  }

  /** The card's result panel: a truthy result of a completed tool. */
  predicate ShowsResultPanel(tool: ToolInfo) {
    Truthy(tool.result) && tool.status == Completed
  }

  /** The "Tool execution failed" panel. */
  predicate ShowsFailurePanel(tool: ToolInfo) {
    tool.status == Failed
  }

  /** The spinning animation on the status icon. */
  predicate StatusIconSpins(tool: ToolInfo) {
    tool.status == Running
  }

  /**
   * Each status shows at most one of the three: a running tool only spins,
   * a failed one only reports failure, a pending one shows none of them, and
   * a completed one shows its result exactly when the result is truthy.
   */
  lemma StatusParts(tool: ToolInfo)
    ensures tool.status == Pending ==>
      !ShowsResultPanel(tool) && !ShowsFailurePanel(tool) && !StatusIconSpins(tool)
    ensures tool.status == Running ==>
      !ShowsResultPanel(tool) && !ShowsFailurePanel(tool) && StatusIconSpins(tool)
    ensures tool.status == Failed ==>
      !ShowsResultPanel(tool) && ShowsFailurePanel(tool) && !StatusIconSpins(tool)
    ensures tool.status == Completed ==>
      (ShowsResultPanel(tool) <==> Truthy(tool.result)) && !ShowsFailurePanel(tool) && !StatusIconSpins(tool)
  {
  }

  /**
   * What the result slot of the card renders. React renders a number or a
   * string child as text and false, null or undefined as nothing.
   */
  datatype Slot = Nothing | StrayText(text: string) | ResultPanel

  /**
   * The result slot as written: `tool.result && tool.status === "completed"
   * && (...)` evaluates to the falsy result itself when there is one, so a
   * result of 0 renders the text "0" in place of the panel. The only falsy
   * string, "", renders nothing visible.
   */
  function ResultSlotAsWritten(tool: ToolInfo): (s: Slot)
    ensures s == ResultPanel <==> ShowsResultPanel(tool)
  {
    if !Truthy(tool.result) then
      match tool.result
      case Some(JNumber(_)) => StrayText("0")
      case _ => Nothing
    else if tool.status == Completed then ResultPanel
    else Nothing
  }

  lemma ZeroResultRendersStrayZero()
    ensures ResultSlotAsWritten(ToolInfo("calculator", "1", Completed, Some(JNumber(0.0)))) == StrayText("0")
    ensures ResultSlotAsWritten(ToolInfo("calculator", "1", Running, Some(JNumber(0.0)))) == StrayText("0")
  {
  }

  /**
   * The result slot as intended: the panel for every completed tool that
   * has a result (not undefined or null), and never a stray value. Every
   * panel the card shows as written is still shown.
   */
  function ResultSlot(tool: ToolInfo): (s: Slot)
    ensures !s.StrayText?
    ensures ShowsResultPanel(tool) ==> s == ResultPanel
    ensures tool.status == Completed && tool.result == Some(JNumber(0.0)) ==> s == ResultPanel
    ensures s == ResultPanel ==> tool.status == Completed && tool.result.Some?
  {
    if tool.status == Completed && tool.result.Some? && tool.result.value != JNull then ResultPanel
    else Nothing
  }
}
