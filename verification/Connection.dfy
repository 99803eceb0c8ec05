/** The loop in which a program lets its partner call registered functions. */
module Connections {
  import opened ObjectGraph

  const ALLOWED: set<string> := {
    "AdvanceInTime", "InitializeSolutionStep", "Predict", "SolveSolutionStep", "FinalizeSolutionStep",
    "OutputSolutionStep", "ImportMesh", "ExportMesh", "ImportData", "ExportData", "exit"
  }

  const EXIT := "exit"

  /** An entry of an info as far as the loop looks at it; settings are passed on unread. */
  datatype Entry = Text(text: string) | Nested(settings: nat) | Other

  type Message = map<string, Entry>

  /** The callbacks are numbered; `None` are the settings of an empty info. */
  datatype Call = Call(callback: nat, settings: Option<nat>)

  datatype Outcome = Exited | Failed | Waiting

  predicate HasSignal(m: Message) {
    "control_signal" in m && m["control_signal"].Text?
  }

  function Signal(m: Message): string
    requires HasSignal(m)
  {
    m["control_signal"].text
  }

  predicate IsExit(m: Message) {
    HasSignal(m) && Signal(m) == "exit"
  }

  /** A message that names a registered function and has no ill-typed settings. */
  predicate Callable(registered: map<string, nat>, m: Message) {
    && HasSignal(m) && Signal(m) in registered && Signal(m) != "exit"
    && ("settings" in m ==> m["settings"].Nested?)
  }

  function CallOf(registered: map<string, nat>, m: Message): Call
    requires Callable(registered, m)
  {
    Call(registered[Signal(m)], if "settings" in m then Some(m["settings"].settings) else None)
  }

  function CallsOf(registered: map<string, nat>, messages: seq<Message>): seq<Call>
    requires forall m :: m in messages ==> Callable(registered, m)
  {
    seq(|messages|, i requires 0 <= i < |messages| => CallOf(registered, messages[i]))
  }

  /**
   * The loop ended at message `k`, the first that is not callable, and made the calls of those
   * before it, in order.
   */
  predicate Ended(registered: map<string, nat>, messages: seq<Message>, k: int, outcome: Outcome, calls: seq<Call>) {
    && 0 <= k <= |messages| && (forall m :: m in messages[..k] ==> Callable(registered, m))
    && (k < |messages| ==> !Callable(registered, messages[k]))
    && calls == CallsOf(registered, messages[..k])
    && outcome == if k == |messages| then Waiting else if IsExit(messages[k]) then Exited else Failed
  }

  // What was registered

  datatype Registration = Registration(name: string, callback: nat)

  predicate FirstAt(history: seq<Registration>, name: string, i: int) {
    && 0 <= i < |history| && history[i].name == name && name in ALLOWED
    && forall j :: 0 <= j < i ==> history[j].name != name
  }

  /** Every attempt with an allowed name has a first one. */
  lemma {:induction false} AttemptHasFirst(history: seq<Registration>, j: nat) returns (i: nat)
    requires j < |history| && history[j].name in ALLOWED
    ensures FirstAt(history, history[j].name, i)
  {
    i := 0;
    while history[i].name != history[j].name
      invariant i <= j && forall k :: 0 <= k < i ==> history[k].name != history[j].name
      decreases j - i
    {
      i := i + 1;
    }
  }

  lemma OneMoreAttempt(history: seq<Registration>, r: Registration)
    ensures forall name, i: int :: i < |history| ==>
              (FirstAt(history + [r], name, i) <==> FirstAt(history, name, i))
  {
    var longer := history + [r];
    assert forall j :: 0 <= j < |history| ==> longer[j] == history[j];
    forall name, i: int | i < |history| ensures FirstAt(longer, name, i) <==> FirstAt(history, name, i) {
      if FirstAt(longer, name, i) {
        assert forall j :: 0 <= j < i ==> longer[j].name != name;
      }
    }
  }

  class Connection {
    var registered: map<string, nat>
    ghost var history: seq<Registration>

    /** The registered names are allowed ones, each with the callback it was first registered with. */
    ghost predicate Valid()
      reads this
    {
      && registered.Keys <= ALLOWED
      && (forall name, i :: FirstAt(history, name, i) ==> name in registered && registered[name] == history[i].callback)
      && (forall name :: name in registered ==> exists i :: FirstAt(history, name, i))
    }

    constructor ()
      ensures Valid() && registered == map[] && history == []
    {
      registered, history := map[], [];
    }

    /** Registers unless the name is not allowed or taken; `history` records every attempt. */
    method Register(name: string, callback: nat) returns (ok: bool)
      requires Valid()
      modifies this
      ensures Valid() && history == old(history) + [Registration(name, callback)]
      ensures ok <==>
        && name !in old(registered)
        && name in {"AdvanceInTime", "InitializeSolutionStep", "Predict", "SolveSolutionStep", "FinalizeSolutionStep",
                    "OutputSolutionStep", "ImportMesh", "ExportMesh", "ImportData", "ExportData", "exit"}
      ensures registered == if ok then old(registered)[name := callback] else old(registered)
    {
      ok := name in ALLOWED && name !in registered;
      var attempt := Registration(name, callback);
      OneMoreAttempt(history, attempt);
      if name in ALLOWED && FirstAt(history + [attempt], name, |history|) {
        assert name !in registered;
      }
      if ok {
        forall k | 0 <= k < |history| ensures history[k].name != name {
          if history[k].name == name {
            var i := AttemptHasFirst(history, k);
          }
        }
        assert FirstAt(history + [attempt], name, |history|);
        registered := registered[name := callback];
      }
      history := history + [attempt];
    }

    /** Runs on the messages received so far: `Waiting` when they end before an exit or an error. */
    method Run(messages: seq<Message>) returns (outcome: Outcome, calls: seq<Call>)
      requires Valid()
      ensures exists k :: Ended(registered, messages, k, outcome, calls)
    {
      calls := [];
      for i := 0 to |messages|
        invariant forall m :: m in messages[..i] ==> Callable(registered, m)
        invariant calls == CallsOf(registered, messages[..i])
      {
        var m := messages[i];
        assert Callable(registered, m) || Ended(registered, messages, i, if IsExit(m) then Exited else Failed, calls);
        if "control_signal" !in m || !m["control_signal"].Text? {
          return Failed, calls;
        }
        var signal := m["control_signal"].text;
        if signal !in ALLOWED {
          return Failed, calls;
        }
        if signal == EXIT {
          return Exited, calls;
        }
        if signal !in registered {
          return Failed, calls;
        }
        var settings := None;
        if "settings" in m {
          if !m["settings"].Nested? {
            return Failed, calls;
          }
          settings := Some(m["settings"].settings);
        }
        calls := calls + [Call(registered[signal], settings)];
        assert messages[..i + 1] == messages[..i] + [m];
      }
      assert messages[..|messages|] == messages;
      outcome := Waiting;
      assert Ended(registered, messages, |messages|, outcome, calls);
    }
  }
}
