/** The per-frame interaction check (checkNPCInteraction in main.js): which
    zone the avatar is in, the door toggle, the one-shot NPC dialogues and the
    quest panel. */
module Quest {
  import opened Geometry
  import Door

  /** What the quest panel shows: (title, status, description). */
  datatype Panel = Panel(title: string, status: string, description: string)

  /** The dialogue signal of a frame (showDialog / showAltarDialog). */
  datatype Dialog = NoDialog | MonkDialog | AltarDialog

  datatype Zone = DoorZone | MonkZone | AltarZone | Elsewhere

  /** How close the avatar must be to an NPC to talk to it. */
  const TalkRange: real := 2.0

  const InRangeStatus: string := "In range - Press E to talk"
  const NotStartedPanel: Panel :=
    Panel("Talk to the monk", "Not started", "Approach the other monk to begin your investigation.")
  const MonkInRangePanel: Panel :=
    Panel("Talk to the monk", InRangeStatus, "Approach the other monk to begin your investigation.")
  const MonkTalkedPanel: Panel :=
    Panel("The Bishop's Disappearance", "In Progress",
          "The monk tells you about strange occurrences in the abbey's crypt before the bishop's disappearance...")
  const AltarInRangePanel: Panel :=
    Panel("Talk to the altar keeper", InRangeStatus,
          "The altar keeper might know something about the bishop's disappearance.")
  const AltarTalkedPanel: Panel :=
    Panel("The Bishop's Disappearance", "In Progress",
          "The altar keeper tells you about strange symbols he found in the bishop's private chapel...")

  /** The door prompt, describing the door as it is when the panel is written. */
  function DoorPanel(open: bool): (p: Panel)
    ensures p.title == "Door"
    ensures p.status == (if open then "Open" else "Closed")
  {
    Panel("Door", if open then "Open" else "Closed",
          "Press E to " + (if open then "close" else "open") + " the door")
  }

  /** Where the avatar stands in a frame: its position, and its distances to
      the primary NPC and to the altar keeper (distanceTo of the meshes). */
  datatype Place = Place(position: Vec3, toNpc: real, toAltarNpc: real)

  /** The zone of a place, first match wins: doorway, primary NPC, altar NPC. */
  function ZoneOf(p: Place): (z: Zone)
    ensures z == DoorZone <==> InDoorway(p.position)
    ensures z == MonkZone <==> !InDoorway(p.position) && p.toNpc < TalkRange
    ensures z == AltarZone <==> !InDoorway(p.position) && !(p.toNpc < TalkRange) && p.toAltarNpc < TalkRange
    ensures z == Elsewhere <==> !InDoorway(p.position) && !(p.toNpc < TalkRange) && !(p.toAltarNpc < TalkRange)
  {
    if InDoorway(p.position) then DoorZone
    else if p.toNpc < TalkRange then MonkZone
    else if p.toAltarNpc < TalkRange then AltarZone
    else Elsewhere
  }

  /** The state checkNPCInteraction reads and writes. */
  datatype Interaction = Interaction(doorOpen: bool, doorTarget: real,
                                     talkedToMonk: bool, talkedToAltarNpc: bool,
                                     keyWasPressed: bool, panel: Panel)
  {
    /** The door aims at the angle its open flag selects. */
    predicate DoorConsistent() { doorTarget == Door.TargetFor(doorOpen) }
  }

  const StartInteraction: Interaction := Interaction(false, 0.0, false, false, false, NotStartedPanel)

  datatype Outcome = Outcome(state: Interaction, dialog: Dialog)

  /** The interact key's rising edge: pressed now, released last frame. */
  predicate RisingEdge(s: Interaction, keyPressed: bool) { keyPressed && !s.keyWasPressed }

  /** One call of checkNPCInteraction with the avatar at p. */
  function Check(s: Interaction, p: Place, keyPressed: bool): (o: Outcome)
    // the edge latch is stored on every call
    ensures o.state.keyWasPressed == keyPressed
    // the door toggles exactly on a rising edge in the door zone
    ensures o.state.doorOpen == (s.doorOpen != (ZoneOf(p) == DoorZone && RisingEdge(s, keyPressed)))
    ensures o.state.doorOpen != s.doorOpen ==> o.state.doorTarget == Door.TargetFor(o.state.doorOpen)
    ensures o.state.doorOpen == s.doorOpen ==> o.state.doorTarget == s.doorTarget
    ensures s.DoorConsistent() ==> o.state.DoorConsistent()
    // the dialogue flags only go from false to true, each with its signal
    ensures s.talkedToMonk ==> o.state.talkedToMonk
    ensures s.talkedToAltarNpc ==> o.state.talkedToAltarNpc
    ensures o.dialog == MonkDialog <==> !s.talkedToMonk && o.state.talkedToMonk
    ensures o.dialog == AltarDialog <==> !s.talkedToAltarNpc && o.state.talkedToAltarNpc
    // dialogues are level-triggered: the key held, not its edge
    ensures o.dialog == MonkDialog <==> ZoneOf(p) == MonkZone && !s.talkedToMonk && keyPressed
    ensures o.dialog == AltarDialog <==> ZoneOf(p) == AltarZone && !s.talkedToAltarNpc && keyPressed
    // the panel
    ensures ZoneOf(p) == DoorZone ==> o.state.panel == DoorPanel(s.doorOpen)
    ensures o.dialog == MonkDialog ==> o.state.panel == MonkTalkedPanel
    ensures o.dialog == AltarDialog ==> o.state.panel == AltarTalkedPanel
    ensures ZoneOf(p) == MonkZone && !s.talkedToMonk && !keyPressed ==> o.state.panel == MonkInRangePanel
    ensures ZoneOf(p) == AltarZone && !s.talkedToAltarNpc && !keyPressed ==> o.state.panel == AltarInRangePanel
    ensures ZoneOf(p) == MonkZone && s.talkedToMonk ==> o.state.panel == s.panel
    ensures ZoneOf(p) == AltarZone && s.talkedToAltarNpc ==> o.state.panel == s.panel
    ensures ZoneOf(p) == Elsewhere ==>
              o.state.panel == (if !s.talkedToMonk && s.panel.status == InRangeStatus then NotStartedPanel else s.panel)
  {
    var latched := s.(keyWasPressed := keyPressed);
    match ZoneOf(p)
    case DoorZone =>
      var panel := DoorPanel(s.doorOpen);
      if RisingEdge(s, keyPressed) then
        Outcome(latched.(panel := panel, doorOpen := !s.doorOpen, doorTarget := Door.TargetFor(!s.doorOpen)), NoDialog)
      else
        Outcome(latched.(panel := panel), NoDialog)
    case MonkZone =>
      if s.talkedToMonk then Outcome(latched, NoDialog)
      else if keyPressed then Outcome(latched.(talkedToMonk := true, panel := MonkTalkedPanel), MonkDialog)
      else Outcome(latched.(panel := MonkInRangePanel), NoDialog)
    case AltarZone =>
      if s.talkedToAltarNpc then Outcome(latched, NoDialog)
      else if keyPressed then Outcome(latched.(talkedToAltarNpc := true, panel := AltarTalkedPanel), AltarDialog)
      else Outcome(latched.(panel := AltarInRangePanel), NoDialog)
    case Elsewhere =>
      if !s.talkedToMonk && s.panel.status == InRangeStatus then Outcome(latched.(panel := NotStartedPanel), NoDialog)
      else Outcome(latched, NoDialog)
  }

  /** The latch confines the edge to the first frame of a press: with E still
      held, the frame after any check is not a rising edge, and once E is
      released the next press is one. */
  lemma EdgeOnlyOnFirstFrame(s: Interaction, p: Place)
    ensures !RisingEdge(Check(s, p, true).state, true)
    ensures RisingEdge(Check(s, p, false).state, true)
  {
  }

  /** The door prompt is written before the toggle, so on the frame the door
      toggles the panel still names the state it had; the next frame in the
      doorway corrects it. */
  lemma DoorPanelLagsToggle(s: Interaction, p: Place)
    requires InDoorway(p.position) && !s.keyWasPressed
    ensures var o := Check(s, p, true);
            o.state.doorOpen != s.doorOpen &&
            o.state.panel.status == (if o.state.doorOpen then "Closed" else "Open") &&
            Check(o.state, p, true).state.panel == DoorPanel(o.state.doorOpen)
  {
  }

  /** The prompt of the altar keeper shares its status text with the monk's,
      so leaving the altar keeper's range before the monk has been talked to
      puts the monk's "Not started" panel back. */
  lemma AltarPromptFallsBackToMonkQuest(s: Interaction, near: Place, away: Place)
    requires !s.talkedToMonk && !s.talkedToAltarNpc
    requires ZoneOf(near) == AltarZone && ZoneOf(away) == Elsewhere
    ensures var o := Check(s, near, false);
            o.state.panel == AltarInRangePanel &&
            Check(o.state, away, false).state.panel == NotStartedPanel
  {
  }

  // ---------------------------------------------------------------- traces

  /** One frame's input to the check: where the avatar is and whether E is held. */
  datatype Tick = Tick(place: Place, keyPressed: bool)

  function Final(s: Interaction, ticks: seq<Tick>): Interaction
    decreases ticks
  {
    if ticks == [] then s else Final(Check(s, ticks[0].place, ticks[0].keyPressed).state, ticks[1..])
  }

  /** The dialogue signals emitted frame by frame. */
  function Signals(s: Interaction, ticks: seq<Tick>): (ds: seq<Dialog>)
    ensures |ds| == |ticks|
    decreases ticks
  {
    if ticks == [] then []
    else
      var o := Check(s, ticks[0].place, ticks[0].keyPressed);
      [o.dialog] + Signals(o.state, ticks[1..])
  }

  /** How many frames toggled the door. */
  function Toggles(s: Interaction, ticks: seq<Tick>): nat
    decreases ticks
  {
    if ticks == [] then 0
    else
      var o := Check(s, ticks[0].place, ticks[0].keyPressed);
      (if o.state.doorOpen != s.doorOpen then 1 else 0) + Toggles(o.state, ticks[1..])
  }

  function Count(ds: seq<Dialog>, d: Dialog): nat
    decreases ds
  {
    if ds == [] then 0 else (if ds[0] == d then 1 else 0) + Count(ds[1..], d)
  }

  /** Holding E over consecutive frames toggles the door at most once, and
      not at all when it was already held on the frame before. */
  lemma {:induction false} HeldKeyTogglesAtMostOnce(s: Interaction, ticks: seq<Tick>)
    requires forall i :: 0 <= i < |ticks| ==> ticks[i].keyPressed
    ensures Toggles(s, ticks) <= (if s.keyWasPressed then 0 else 1)
    decreases ticks
  {
    if ticks != [] {
      var o := Check(s, ticks[0].place, ticks[0].keyPressed);
      HeldKeyTogglesAtMostOnce(o.state, ticks[1..]);
    }
  }

  /** Each dialogue fires at most once over any sequence of frames, and never
      once its flag is set. */
  lemma {:induction false} DialoguesAtMostOnce(s: Interaction, ticks: seq<Tick>)
    ensures Count(Signals(s, ticks), MonkDialog) <= (if s.talkedToMonk then 0 else 1)
    ensures Count(Signals(s, ticks), AltarDialog) <= (if s.talkedToAltarNpc then 0 else 1)
    decreases ticks
  {
    if ticks != [] {
      var o := Check(s, ticks[0].place, ticks[0].keyPressed);
      DialoguesAtMostOnce(o.state, ticks[1..]);
      assert Signals(s, ticks) == [o.dialog] + Signals(o.state, ticks[1..]);
      assert ([o.dialog] + Signals(o.state, ticks[1..]))[1..] == Signals(o.state, ticks[1..]);
    }
  }

  /** The dialogue flags are never reset and the door keeps aiming where its
      flag says. */
  lemma {:induction false} FinalKeepsFlags(s: Interaction, ticks: seq<Tick>)
    ensures s.talkedToMonk ==> Final(s, ticks).talkedToMonk
    ensures s.talkedToAltarNpc ==> Final(s, ticks).talkedToAltarNpc
    ensures s.DoorConsistent() ==> Final(s, ticks).DoorConsistent()
    decreases ticks
  {
    if ticks != [] {
      FinalKeepsFlags(Check(s, ticks[0].place, ticks[0].keyPressed).state, ticks[1..]);
    }
  }
}
