/** The two-state example machine ("idle" and "running") and a session on it,
    once on the value-level model and once through the class. */
module FsmScenarios {
  import opened FsmSpec
  import Fsm

  /** idle --go--> running, running --stop--> idle. */
  function IdleRunning(): Config {
    Config("idle",
           map["idle" := StateDef(map["go" := "running"]),
               "running" := StateDef(map["stop" := "idle"])],
           ["idle", "running"])
  }

  lemma IdleRunningWellFormed()
    ensures WellFormed(IdleRunning())
  {
    var c := IdleRunning();
    assert c.states.Keys == {"idle", "running"};
  }

  /** Start in idle; "go" leads to running; undo returns to idle and redo to
      running again; "go" is known only in idle. */
  lemma IdleRunningSession()
    ensures var c := IdleRunning();
      && Init(Some(c)) == Ok(History("idle", [], []))
      && Trigger(c, History("idle", [], []), "go") == Ok(History("running", ["idle"], []))
      && Undo(History("running", ["idle"], [])) == (true, History("idle", [], ["running"]))
      && Redo(History("idle", [], ["running"])) == (true, History("running", ["idle"], []))
      && Trigger(c, History("running", ["idle"], []), "go") == Err(UnknownEventError)
      && GetStates(c, Some("go")) == ["idle"]
      && GetStates(c, None) == ["idle", "running"]
  {
    var c := IdleRunning();
    assert ["idle"][..0] == [] && [] + ["running"] == ["running"];
    assert [] + ["idle"] == ["idle"];
    assert StatesWith(["running"], c.states, "go") == [];
    assert StatesWith(c.order, c.states, "go") == ["idle"];
  }

  /** The same session through the object, using only its contracts. */
  method IdleRunningClient() {
    IdleRunningWellFormed();
    var m := new Fsm.FSM(IdleRunning());
    var r := m.Trigger("go");
    assert r == Fsm.Done && m.GetState() == "running";
    var moved := m.Undo();
    assert moved && m.GetState() == "idle";
    moved := m.Redo();
    assert moved && m.GetState() == "running";
    r := m.Trigger("go");
    assert r == Fsm.Failed(UnknownEventError) && m.GetState() == "running";
    m.Reset();
    assert m.GetState() == "idle";
    moved := m.Undo();
    assert moved && m.GetState() == "idle" && m.nextState == ["idle"];
    m.ClearHistory();
    moved := m.Undo();
    assert !moved;
    moved := m.Redo();
    assert !moved;
  }
}
