/** The Pikmin client of the `pikmin` world: it folds game-state reports
    into its context (day, area, collected ship parts) and announces each
    newly collected part to the server once. */
module PartTracker {
  import opened Options
  import opened Sequences

  /** The ship part names the `collect` command accepts ("Chronos Reactor" is listed twice). */
  const ShipParts: seq<string> := [
    "Main Engine", "Positron Generator", "Eternal Fuel Dynamo", "Interstellar Radio",
    "Bowsprit", "Chronos Reactor", "Gluon Drive", "Zirconium Rotor", "Automatic Gear",
    "Space Float", "Repair-type Bolt", "Shock Absorber", "Analog Computer",
    "Extraordinary Bolt", "Engine", "Whirlpool Generator", "Pilot's Seat",
    "Massage Girdle", "Radiation Canopy", "Gravity Jumper", "Sagittarius",
    "Geiger Counter", "Libra", "Nova Blaster", "Magnetic Flux Controller",
    "Chronos Reactor", "Anti-Dioxin Filter", "UV Lamp", "Secret Safe"
  ]

  /** A game-state dictionary: each key may be present or absent. */
  datatype GameStateReport = GameStateReport(
    currentDay: Option<int>, currentArea: Option<string>, collectedParts: Option<seq<string>>)
  {
    /** No key that the client looks at is present. */
    predicate IsEmpty()
    {
      currentDay.None? && currentArea.None? && collectedParts.None?
    }

    /** The parts the report lists, as a set. */
    function Reported(): (r: set<string>)
      ensures collectedParts.None? ==> r == {}
      ensures collectedParts.Some? ==> forall p :: p in r <==> p in collectedParts.value
    {
      if collectedParts.Some? then set p | p in collectedParts.value else {}
    }
  }

  /** The parts of a report not collected yet: the set difference of the source. */
  function NewParts(reported: set<string>, collected: set<string>): (r: set<string>)
    ensures forall p :: p in r <==> p in reported && p !in collected
    ensures r !! collected
  {
    reported - collected
  }

  /** Once a report's parts have been added, the same report brings nothing new. */
  lemma ReplayedReportIsQuiet(reported: set<string>, collected: set<string>)
    ensures NewParts(reported, collected + NewParts(reported, collected)) == {}
  {
  }

  class PikminContext {
    var collectedParts: set<string>
    var currentArea: Option<string>
    var currentDay: int
    var pikminCounts: map<string, int>

    constructor ()
      ensures collectedParts == {} && currentArea.None? && currentDay == 1
      ensures pikminCounts == map["Red Pikmin" := 0, "Blue Pikmin" := 0, "Yellow Pikmin" := 0]
    {
      collectedParts := {};
      currentArea := None;
      currentDay := 1;
      pikminCounts := map["Red Pikmin" := 0, "Blue Pikmin" := 0, "Yellow Pikmin" := 0];
    }

    /** `_on_part_collected`: add the part; a location check is sent only
        when a server socket exists (`sent`). */
    method OnPartCollected(part: string, hasSocket: bool) returns (sent: bool)
      modifies this`collectedParts
      ensures collectedParts == old(collectedParts) + {part}
      ensures sent == hasSocket
    {
      collectedParts := collectedParts + {part};
      sent := hasSocket;
    }

    /** `_process_game_state`: take a reported day or area, then announce
        every reported part not collected yet, once each, in some order.
        `announced` lists the parts collected by this call, `sent` those
        whose location check went out. An empty report changes nothing. */
    method ProcessGameState(report: GameStateReport, hasSocket: bool)
      returns (announced: seq<string>, sent: seq<string>)
      modifies this
      ensures report.IsEmpty() ==>
                announced == [] && collectedParts == old(collectedParts) &&
                currentDay == old(currentDay) && currentArea == old(currentArea)
      ensures currentDay == report.currentDay.GetOr(old(currentDay))
      ensures currentArea == if report.currentArea.Some? then report.currentArea else old(currentArea)
      ensures collectedParts == old(collectedParts) + report.Reported()
      ensures (set p | p in announced) == NewParts(report.Reported(), old(collectedParts))
      ensures Distinct(announced)
      ensures sent == if hasSocket then announced else []
      ensures pikminCounts == old(pikminCounts)
    {
      announced, sent := [], [];
      if report.IsEmpty() {
        return;
      }
      if report.currentDay.Some? && report.currentDay.value != currentDay {
        currentDay := report.currentDay.value;
      }
      if report.currentArea.Some? && report.currentArea != currentArea {
        currentArea := report.currentArea;
      }
      if report.collectedParts.Some? {
        var newParts := NewParts(report.Reported(), collectedParts);
        ghost var all := newParts;
        ghost var before := collectedParts;
        while newParts != {}
          modifies this`collectedParts
          invariant newParts <= all
          invariant collectedParts == before + (all - newParts)
          invariant (set p | p in announced) == all - newParts
          invariant Distinct(announced)
          invariant sent == if hasSocket then announced else []
          decreases newParts
        {
          var part :| part in newParts;
          newParts := newParts - {part};
          var wasSent := OnPartCollected(part, hasSocket);
          announced := announced + [part];
          if wasSent {
            sent := sent + [part];
          }
        }
        assert collectedParts == before + report.Reported();
      }
    }

    /** The `collect` command: an empty or unknown name changes nothing; a
        known ship part is added and a location check is scheduled. */
    method CmdCollect(partName: string) returns (scheduled: bool)
      modifies this`collectedParts
      ensures scheduled <==> partName != "" && partName in ShipParts
      ensures collectedParts == old(collectedParts) + (if scheduled then {partName} else {})
    {
      scheduled := false;
      if partName == "" {
        return;
      }
      if partName in ShipParts {
        collectedParts := collectedParts + {partName};
        scheduled := true;
      }
    }
  }
}
