/** The records exchanged between the browser, the two handlers and the
    language model (src/lib/types.ts). Years are free-form labels such as
    "3500 BC" or "~1900": they are strings and carry no order. The event
    counts the prompts ask for (4 timeline events, 3 components, 2 history
    events) are not enforced anywhere, so no length appears here. */
module Types {

  datatype TimelineEvent = TimelineEvent(year: string, event: string, description: string)

  /** A material or technology of the object; `connectsAtYear` names the
      main-timeline year it branches from. */
  datatype Component = Component(name: string, connectsAtYear: string, history: seq<TimelineEvent>)

  datatype ProvenanceResult = ProvenanceResult(
    title: string,
    summary: string,
    timeline: seq<TimelineEvent>,
    components: seq<Component>)

  datatype ComponentDetailResult = ComponentDetailResult(name: string, history: seq<TimelineEvent>)

  /** One entry of the scan history; `timestamp` is milliseconds since the epoch. */
  datatype Scan = Scan(id: string, timestamp: int, imageBase64: string, result: ProvenanceResult)

  datatype BranchColor = BranchColor(name: string, primary: string, glow: string)

  /** The palette that component branches cycle through. */
  const BRANCH_COLORS: seq<BranchColor> := [
    BranchColor("cyan", "#06b6d4", "rgba(6, 182, 212, 0.3)"),
    BranchColor("purple", "#a855f7", "rgba(168, 85, 247, 0.3)"),
    BranchColor("emerald", "#10b981", "rgba(16, 185, 129, 0.3)"),
    BranchColor("rose", "#f43f5e", "rgba(244, 63, 94, 0.3)"),
    BranchColor("blue", "#3b82f6", "rgba(59, 130, 246, 0.3)")
  ]
}
