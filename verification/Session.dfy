/** The session lifecycle (src/Session.cpp). Launching a job and the state update that follows it are one step;
    what the other components answer during a start is a parameter of that step. */
module Session {
  import opened Types
  import Validator
  import CompilerLaws

  datatype State = Idle | Analysing | Rendering

  /** The error codes of include/ovi_types.h that a session call can return. */
  const NONE := 0
  const INVALID_PARAMETER := -1
  const INVALID_OPERATION := -2
  const INVALID_STATE := -4

  /** What a client sets up before starting. */
  datatype Config = Config(mediaPath: string, renderUid: Uid, outputPath: string, expression: seq<Token>,
                           plugins: PluginTable, attrs: map<Uid, map<string, string>>, skipFrames: nat)

  /** One state-changed notification. */
  datatype Change = Change(previous: State, current: State)

  /** A client call, or the completion of a job. */
  datatype Event =
    | SetMediaPath(path: string, resolved: Option<string>, code: int)
    | SetSkip(frames: nat)
    | AppendPlugin(name: string, uid: Uid, kind: PluginKind, loaded: int)
    | SetPluginAttrs(uid: Uid, attrs: map<string, string>)
    | RegisterPlugin(request: seq<Token>)
    | SetRender(uid: Uid, outputPath: string)
    | SetStateChangedCb(callback: bool)
    | UnsetStateChangedCb
    | Start(linked: bool, prepared: int)
    | Stop
    | Complete(error: int)

  datatype Snapshot = Snapshot(state: State, config: Config, notify: bool, log: seq<Change>)

  const BLANK := Config("", "", "", [], map[], map[], 0)
  const CREATED := Snapshot(Idle, BLANK, false, [])

  function Move(s: Snapshot, current: State): Snapshot {
    s.(state := current,
       log := if s.notify && s.state != current then s.log + [Change(s.state, current)] else s.log)
  }

  /** The setters: what an idle session answers, and the configuration it then has. */
  ghost function Configure(c: Config, e: Event): (int, Config) {
    match e
    case SetMediaPath(path, resolved, code) =>
      if path == "" then (INVALID_PARAMETER, c)
      else if resolved.None? then (code, c)
      else (NONE, c.(mediaPath := resolved.value))
    case SetSkip(frames) => (NONE, c.(skipFrames := frames))
    case AppendPlugin(name, uid, kind, loaded) =>
      if name == "" then (INVALID_PARAMETER, c)
      else if loaded != NONE then (loaded, c)
      else (NONE, c.(plugins := c.plugins[uid := kind]))
    case SetPluginAttrs(uid, attrs) =>
      if uid == "" || uid !in c.plugins then (INVALID_PARAMETER, c)
      else (NONE, c.(attrs := c.attrs[uid := (if uid in c.attrs then c.attrs[uid] else map[]) + attrs]))
    case RegisterPlugin(request) =>
      if !Validator.Accepts(request, c.plugins) then (INVALID_PARAMETER, c) else (NONE, c.(expression := request))
    case SetRender(uid, outputPath) =>
      if uid == "" || outputPath == "" || uid !in c.plugins || c.plugins[uid] != PluginKind.Render
      then (INVALID_PARAMETER, c)
      else (NONE, c.(renderUid := uid, outputPath := outputPath))
    case _ => (NONE, c)
  }

  /** Whether a start goes through, apart from the state. */
  function StartCode(c: Config, linked: bool, prepared: int): int {
    if c.expression == [] || c.mediaPath == "" || c.renderUid == "" || c.outputPath == "" || !linked
    then INVALID_OPERATION else prepared
  }

  /** One step of the lifecycle: the answer and the next state. */
  ghost function Apply(s: Snapshot, e: Event): (int, Snapshot) {
    match e
    case Start(linked, prepared) =>
      if s.state != Idle then (INVALID_STATE, s)
      else if StartCode(s.config, linked, prepared) != NONE then (StartCode(s.config, linked, prepared), s)
      else (NONE, Move(s, Analysing))
    case Stop =>
      if s.state != Analysing then (INVALID_STATE, s) else (NONE, Move(s, Idle))
    case Complete(error) =>
      if error != NONE then (NONE, Move(s, Idle))
      else if s.state == Analysing then (NONE, Move(s, Rendering))
      else if s.state == Rendering then (NONE, Move(s, Idle))
      else (NONE, s)
    case SetStateChangedCb(callback) =>
      if s.state != Idle then (INVALID_STATE, s)
      else if !callback then (INVALID_PARAMETER, s) else (NONE, s.(notify := true))
    case UnsetStateChangedCb =>
      if s.state != Idle then (INVALID_STATE, s)
      else if !s.notify then (INVALID_OPERATION, s) else (NONE, s.(notify := false))
    case _ =>
      if s.state != Idle then (INVALID_STATE, s)
      else (Configure(s.config, e).0, s.(config := Configure(s.config, e).1))
  }

  // ---------- whole histories ----------

  ghost function Run(events: seq<Event>): Snapshot {
    if events == [] then CREATED else Apply(Run(events[..|events| - 1]), events[|events| - 1]).1
  }

  /** The transitions a client can be told of. */
  predicate Allowed(c: Change) {
    c in {Change(Idle, Analysing), Change(Analysing, Rendering), Change(Analysing, Idle), Change(Rendering, Idle)}
  }

  function LastState(log: seq<Change>): State {
    if log == [] then Idle else log[|log| - 1].current
  }

  /** A path from Idle over allowed transitions. */
  ghost predicate Path(log: seq<Change>) {
    && (forall i :: 0 <= i < |log| ==> Allowed(log[i]))
    && (forall i :: 0 <= i < |log| ==> log[i].previous == LastState(log[..i]))
  }

  ghost predicate Told(s: Snapshot) {
    Path(s.log) && LastState(s.log) == if s.notify then s.state else Idle
  }

  /** A session that is not idle has everything a start asks for. */
  ghost predicate Configured(s: Snapshot) {
    s.state != Idle ==>
      s.config.expression != [] && s.config.mediaPath != "" && s.config.renderUid != "" && s.config.outputPath != ""
  }

  lemma PathStep(log: seq<Change>, c: Change)
    requires Path(log) && Allowed(c) && c.previous == LastState(log)
    ensures Path(log + [c]) && LastState(log + [c]) == c.current
  {
    var all := log + [c];
    assert all[..|log|] == log;
    forall i | 0 <= i < |all| ensures all[i].previous == LastState(all[..i]) {
      if i < |log| { assert all[..i] == log[..i]; }
    }
  }

  lemma ToldMove(s: Snapshot, current: State)
    requires Told(s) && (s.state == current || Allowed(Change(s.state, current)))
    ensures Told(Move(s, current))
  {
    if s.notify && s.state != current {
      PathStep(s.log, Change(s.state, current));
    }
  }

  lemma ToldStep(s: Snapshot, e: Event)
    requires Told(s)
    ensures Told(Apply(s, e).1)
  {
    hide Move, Path, Configure;
    match e {
      case Start(_, _) => if s.state == Idle { ToldMove(s, Analysing); }
      case Stop => if s.state == Analysing { ToldMove(s, Idle); }
      case Complete(error) =>
        if error != NONE { ToldMove(s, Idle); }
        else if s.state == Analysing { ToldMove(s, Rendering); }
        else if s.state == Rendering { ToldMove(s, Idle); }
      case _ =>
    }
  }

  /** Over every history the notifications form a connected path from Idle over the four transitions, and tell
      the current state while a callback is set. */
  lemma {:induction false} NotificationsArePath(events: seq<Event>)
    ensures Told(Run(events))
  {
    if events != [] {
      NotificationsArePath(events[..|events| - 1]);
      ToldStep(Run(events[..|events| - 1]), events[|events| - 1]);
    }
  }

  /** The configuration stays frozen for as long as the session does not return to Idle. */
  lemma {:induction false} ConfigFrozen(events: seq<Event>, m: nat, n: nat)
    requires m <= n <= |events|
    requires forall k :: m <= k < n ==> Run(events[..k]).state != Idle
    ensures Run(events[..n]).config == Run(events[..m]).config
    ensures Run(events[..n]).notify == Run(events[..m]).notify
  {
    if m < n {
      ConfigFrozen(events, m, n - 1);
      assert events[..n][..n - 1] == events[..n - 1];
    }
  }

  /** A session that is not idle has everything a start asks for, for as long as it runs. */
  lemma {:induction false} RunningIsConfigured(events: seq<Event>)
    ensures Configured(Run(events))
  {
    if events != [] {
      RunningIsConfigured(events[..|events| - 1]);
    }
  }

  /** One more event. */
  lemma RunMore(events: seq<Event>, e: Event)
    ensures Run(events + [e]) == Apply(Run(events), e).1
    ensures Told(Run(events + [e])) && Configured(Run(events + [e]))
  {
    assert (events + [e])[..|events|] == events;
    NotificationsArePath(events + [e]);
    RunningIsConfigured(events + [e]);
  }

  // ---------- the session ----------

  class Session {
    var state: State
    var mediaPath: string
    var renderUid: Uid
    var outputPath: string
    var expression: seq<Token>
    var plugins: PluginTable
    var attrs: map<Uid, map<string, string>>
    var skipFrames: nat
    var stateChangedCb: bool
    ghost var log: seq<Change>
    ghost var history: seq<Event>  // the calls and completions so far

    ghost function View(): Snapshot
      reads this
    {
      var config := Config(mediaPath, renderUid, outputPath, expression, plugins, attrs, skipFrames);
      Snapshot(state, config, stateChangedCb, log)
    }

    /** The session is where its history leads; so its notifications are a path to its state, and it is
        configured while it runs. */
    ghost predicate Valid()
      reads this
    {
      View() == Run(history) && Told(View()) && Configured(View())
    }

    constructor ()
      ensures Valid() && history == [] && View() == CREATED
    {
      history := [];
      state, stateChangedCb, log := Idle, false, [];
      mediaPath, renderUid, outputPath, expression := "", "", "", [];
      plugins, attrs, skipFrames := map[], map[], 0;
    }

    method UpdateState(current: State)
      modifies this`state, this`log
      ensures View() == Move(old(View()), current)
      ensures state == current
      ensures log == old(log) + if stateChangedCb && old(state) != state then [Change(old(state), state)] else []
    {
      var previous := state;
      state := current;
      if stateChangedCb && previous != current {
        log := log + [Change(previous, current)];
      }
    }

    method SetMediaPathTo(path: string, resolved: Option<string>, code: int) returns (ret: int)
      requires Valid()
      modifies this`mediaPath, this`history
      ensures Valid() && history == old(history) + [SetMediaPath(path, resolved, code)]
      ensures (ret, View()) == Apply(old(View()), SetMediaPath(path, resolved, code))
      ensures ret == if state != Idle then INVALID_STATE
                     else if path == "" then INVALID_PARAMETER
                     else if resolved.None? then code else NONE
      ensures mediaPath == if state == Idle && path != "" && resolved.Some? then resolved.value else old(mediaPath)
    {
      hide Run, Told, Configured;
      RunMore(history, SetMediaPath(path, resolved, code));
      history := history + [SetMediaPath(path, resolved, code)];
      if state != Idle {
        return INVALID_STATE;
      }
      if path == "" {
        return INVALID_PARAMETER;
      }
      if resolved.None? {
        return code;
      }
      mediaPath := resolved.value;
      return NONE;
    }

    method SetSkipVideoFrames(frames: nat) returns (ret: int)
      requires Valid()
      modifies this`skipFrames, this`history
      ensures Valid() && history == old(history) + [SetSkip(frames)]
      ensures (ret, View()) == Apply(old(View()), SetSkip(frames))
      ensures ret == if state != Idle then INVALID_STATE else NONE
      ensures skipFrames == if state == Idle then frames else old(skipFrames)
    {
      hide Run, Told, Configured;
      RunMore(history, SetSkip(frames));
      history := history + [SetSkip(frames)];
      if state != Idle {
        return INVALID_STATE;
      }
      skipFrames := frames;
      return NONE;
    }

    /** The uid is the one the plugin manager makes up, which no loaded plugin has; `loaded` is its answer. */
    method Append(name: string, uid: Uid, kind: PluginKind, loaded: int) returns (ret: int)
      requires uid !in plugins
      requires Valid()
      modifies this`plugins, this`history
      ensures Valid() && history == old(history) + [AppendPlugin(name, uid, kind, loaded)]
      ensures (ret, View()) == Apply(old(View()), AppendPlugin(name, uid, kind, loaded))
      ensures ret == if state != Idle then INVALID_STATE else if name == "" then INVALID_PARAMETER else loaded
      ensures plugins == if ret == NONE then old(plugins)[uid := kind] else old(plugins)
    {
      hide Run, Told, Configured;
      RunMore(history, AppendPlugin(name, uid, kind, loaded));
      history := history + [AppendPlugin(name, uid, kind, loaded)];
      if state != Idle {
        return INVALID_STATE;
      }
      if name == "" {
        return INVALID_PARAMETER;
      }
      if loaded != NONE {
        return loaded;
      }
      plugins := plugins[uid := kind];
      return NONE;
    }

    method SetAttrs(uid: Uid, attrs: map<string, string>) returns (ret: int)
      requires Valid()
      modifies this`attrs, this`history
      ensures Valid() && history == old(history) + [SetPluginAttrs(uid, attrs)]
      ensures (ret, View()) == Apply(old(View()), SetPluginAttrs(uid, attrs))
      ensures ret == if state != Idle then INVALID_STATE
                     else if uid == "" || uid !in plugins then INVALID_PARAMETER else NONE
      ensures this.attrs == if ret != NONE then old(this.attrs)
                            else if uid in old(this.attrs) then old(this.attrs)[uid := old(this.attrs)[uid] + attrs]
                            else old(this.attrs)[uid := attrs]
    {
      hide Run, Told, Configured;
      RunMore(history, SetPluginAttrs(uid, attrs));
      history := history + [SetPluginAttrs(uid, attrs)];
      if state != Idle {
        return INVALID_STATE;
      }
      if uid == "" || uid !in plugins {
        return INVALID_PARAMETER;
      }
      assert map[] + attrs == attrs;
      this.attrs := this.attrs[uid := (if uid in this.attrs then this.attrs[uid] else map[]) + attrs];
      return NONE;
    }

    /** Registering compiles the expression, and for one that starts with a detached mark that is undefined. */
    method Register(request: seq<Token>) returns (defined: bool, ret: int)
      requires Valid()
      modifies this`expression, this`history
      ensures Valid()
      ensures !defined <==> old(state) == Idle && Validator.Accepts(request, plugins)
                            && CompilerLaws.StartsDetached(request)
      ensures defined ==> history == old(history) + [RegisterPlugin(request)]
      ensures defined ==> (ret, View()) == Apply(old(View()), RegisterPlugin(request))
      ensures !defined ==> expression == old(expression)
      ensures defined ==>
                && ret == (if state != Idle then INVALID_STATE
                           else if !Validator.Accepts(request, plugins) then INVALID_PARAMETER else NONE)
                && expression == if ret == NONE then request else old(expression)
    {
      hide Validator.Accepts, Run, Told, Configured;
      RunMore(history, RegisterPlugin(request));
      defined, ret := true, INVALID_STATE;
      if state == Idle {
        var ok := Validator.ValidateLogic(request, plugins);
        if ok && CompilerLaws.StartsDetached(request) {
          return false, NONE;
        }
        ret := if ok then NONE else INVALID_PARAMETER;
        if ok {
          expression := request;
        }
      }
      history := history + [RegisterPlugin(request)];
    }

    method SetRenderTo(uid: Uid, outputPath: string) returns (ret: int)
      requires Valid()
      modifies this`renderUid, this`outputPath, this`history
      ensures Valid() && history == old(history) + [SetRender(uid, outputPath)]
      ensures (ret, View()) == Apply(old(View()), SetRender(uid, outputPath))
      ensures ret == if state != Idle then INVALID_STATE
                     else if uid == "" || outputPath == "" || uid !in plugins || plugins[uid] != PluginKind.Render
                     then INVALID_PARAMETER else NONE
      ensures if ret == NONE then renderUid == uid && this.outputPath == outputPath
              else renderUid == old(renderUid) && this.outputPath == old(this.outputPath)
    {
      hide Run, Told, Configured;
      RunMore(history, SetRender(uid, outputPath));
      history := history + [SetRender(uid, outputPath)];
      if state != Idle {
        return INVALID_STATE;
      }
      if uid == "" || outputPath == "" || uid !in plugins || plugins[uid] != PluginKind.Render {
        return INVALID_PARAMETER;
      }
      renderUid := uid;
      this.outputPath := outputPath;
      return NONE;
    }

    method SetCallback(callback: bool) returns (ret: int)
      requires Valid()
      modifies this`stateChangedCb, this`history
      ensures Valid() && history == old(history) + [SetStateChangedCb(callback)]
      ensures (ret, View()) == Apply(old(View()), SetStateChangedCb(callback))
      ensures ret == if state != Idle then INVALID_STATE else if !callback then INVALID_PARAMETER else NONE
      ensures stateChangedCb == (old(stateChangedCb) || ret == NONE)
    {
      hide Run, Told, Configured;
      RunMore(history, SetStateChangedCb(callback));
      history := history + [SetStateChangedCb(callback)];
      if state != Idle {
        return INVALID_STATE;
      }
      if !callback {
        return INVALID_PARAMETER;
      }
      stateChangedCb := true;
      return NONE;
    }

    method UnsetCallback() returns (ret: int)
      requires Valid()
      modifies this`stateChangedCb, this`history
      ensures Valid() && history == old(history) + [UnsetStateChangedCb]
      ensures (ret, View()) == Apply(old(View()), UnsetStateChangedCb)
      ensures ret == if state != Idle then INVALID_STATE
                     else if !old(stateChangedCb) then INVALID_OPERATION else NONE
      ensures stateChangedCb == (old(stateChangedCb) && ret != NONE)
    {
      hide Run, Told, Configured;
      RunMore(history, UnsetStateChangedCb);
      history := history + [UnsetStateChangedCb];
      if state != Idle {
        return INVALID_STATE;
      }
      if !stateChangedCb {
        return INVALID_OPERATION;
      }
      stateChangedCb := false;
      return NONE;
    }

    method StartSession(linked: bool, prepared: int) returns (ret: int)
      requires Valid()
      modifies this`state, this`log, this`history
      ensures Valid() && history == old(history) + [Start(linked, prepared)]
      ensures (ret, View()) == Apply(old(View()), Start(linked, prepared))
      ensures ret == if old(state) != Idle then INVALID_STATE
                     else if expression == [] || mediaPath == "" || renderUid == "" || outputPath == "" || !linked
                     then INVALID_OPERATION else prepared
      ensures state == if ret == NONE then Analysing else old(state)
      ensures log == old(log) + if stateChangedCb && old(state) != state then [Change(old(state), state)] else []
    {
      hide Run, Told, Configured;
      RunMore(history, Start(linked, prepared));
      history := history + [Start(linked, prepared)];
      if state != Idle {
        return INVALID_STATE;
      }
      if expression == [] || mediaPath == "" || renderUid == "" || outputPath == "" || !linked {
        return INVALID_OPERATION;
      }
      if prepared != NONE {
        return prepared;
      }
      UpdateState(Analysing);
      return NONE;
    }

    method StopSession() returns (ret: int)
      requires Valid()
      modifies this`state, this`log, this`history
      ensures Valid() && history == old(history) + [Stop]
      ensures (ret, View()) == Apply(old(View()), Stop)
      ensures if old(state) == Analysing then ret == NONE && state == Idle
              else ret == INVALID_STATE && state == old(state)
      ensures log == old(log) + if stateChangedCb && old(state) != state then [Change(old(state), state)] else []
    {
      hide Run, Told, Configured;
      RunMore(history, Stop);
      history := history + [Stop];
      if state != Analysing {
        return INVALID_STATE;
      }
      UpdateState(Idle);
      return NONE;
    }

    method CompleteCb(error: int)
      requires Valid()
      modifies this`state, this`log, this`history
      ensures Valid() && history == old(history) + [Complete(error)]
      ensures (NONE, View()) == Apply(old(View()), Complete(error))
      ensures state == if error != NONE then Idle
                       else match old(state) case Analysing => Rendering case Rendering => Idle case Idle => Idle
      ensures log == old(log) + if stateChangedCb && old(state) != state then [Change(old(state), state)] else []
    {
      hide Run, Told, Configured;
      RunMore(history, Complete(error));
      history := history + [Complete(error)];
      if error != NONE {
        UpdateState(Idle);
        return;
      }
      if state == Analysing {
        UpdateState(Rendering);
      } else if state == Rendering {
        UpdateState(Idle);
      }
    }
  }
}
