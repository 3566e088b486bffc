/** The request queue between clients and the Python worker (src/PyManager.cpp). Clients push under the lock,
    the worker serves one request per turn under the same lock; Python itself is a parameter. */
module PyManager {
  import opened Types

  type Key = int

  datatype Info = Info(name: string, kind: PluginKind)

  datatype Request =
    | GetInfo(moduleName: string)
    | Create(key: Key, moduleName: string)
    | Remove(key: Key)
    | SetAttrs(key: Key, attrs: map<string, string>)
    | Process(key: Key, frame: Frame)

  datatype Response = InfoIs(info: Info) | AttrsSet(ok: bool) | Processed(outcome: Outcome)

  /** What Python does: importing a module for its description, and calling two functions a module may lack. */
  datatype Python = Python(
    describe: string -> Option<Info>,
    setAttrs: (string, map<string, string>) -> Option<int>,
    process: (string, Frame) -> Option<Outcome>)

  const NO_INFO := Info("", Unspecified)
  const NO_OUTCOME := Outcome(false, [])

  predicate WantsResponse(r: Request) {
    r.GetInfo? || r.SetAttrs? || r.Process?
  }

  /** The answer to a request, given the loaded modules. */
  function Answered(py: Python, modules: map<Key, string>, r: Request): Response
    requires WantsResponse(r)
  {
    match r
    case GetInfo(name) =>
      var info := py.describe(name);
      InfoIs(if info.Some? then info.value else NO_INFO)
    case SetAttrs(key, attrs) =>
      AttrsSet(key in modules && py.setAttrs(modules[key], attrs) == Some(0))
    case Process(key, frame) =>
      var o := if key in modules then py.process(modules[key], frame) else None;
      Processed(if o.Some? then o.value else NO_OUTCOME)
  }

  /** What serving a request does to the loaded modules; a key in use is never overwritten. */
  function Loaded(modules: map<Key, string>, r: Request): map<Key, string> {
    match r
    case Create(key, name) => if key in modules then modules else modules[key := name]
    case Remove(key) => modules - {key}
    case _ => modules
  }

  /** A queued request with its ticket, the number of requests issued before it; the ticket names its promise. */
  datatype Entry = Entry(ticket: nat, request: Request)

  class PyManager {
    const py: Python
    var req: seq<Entry>
    var modules: map<Key, string>
    var lastKey: Key
    var promises: map<nat, Response>
    var tickets: nat

    /** All requests in the order they were pushed, and the promises in the order they were set. */
    ghost var issued: seq<Request>
    ghost var settled: seq<nat>

    constructor (py: Python)
      ensures Valid() && issued == [] && settled == []
    {
      this.py := py;
      req, modules, lastKey, promises, tickets := [], map[], 0, map[], 0;
      issued, settled := [], [];
    }

    ghost function Served(): nat
      requires |req| <= |issued|
      reads this
    {
      |issued| - |req|
    }

    /** The state is what serving all but the queued requests, in order of issue, makes it. */
    ghost predicate Valid()
      reads this
    {
      && tickets == |issued| && Keyed(issued) && lastKey == Creations(issued)
      && Queued(req, issued)
      && modules == ModulesAfter(issued[..Served()])
      && Settled(py, promises, settled, issued, Served())
    }

    method Push(r: Request) returns (ticket: nat)
      requires Valid()
      requires r.Create? ==> r.key == lastKey + 1
      modifies this
      ensures Valid() && ticket == |old(issued)|
      ensures issued == old(issued) + [r] && Served() == old(Served())
      ensures settled == old(settled) && promises == old(promises)
    {
      hide Keyed, Creations, ModulesAfter, Settled;
      ticket := tickets;
      PushKeyed(issued, r, lastKey);
      PushQueued(req, issued, r);
      PushSettled(py, promises, settled, issued, Served(), r);
      if r.Create? {
        lastKey := r.key;
      }
      req := req + [Entry(tickets, r)];
      tickets := tickets + 1;
      issued := issued + [r];
    }

    method GetPluginInfo(moduleName: string) returns (ticket: nat)
      requires Valid()
      modifies this
      ensures Valid() && ticket == |old(issued)| && Served() == old(Served())
      ensures issued == old(issued) + [GetInfo(moduleName)]
    {
      ticket := Push(GetInfo(moduleName));
    }

    /** Hands out a key before the module is loaded. */
    method CreateModule(moduleName: string) returns (key: Key)
      requires Valid()
      modifies this
      ensures Valid() && Served() == old(Served())
      ensures issued == old(issued) + [Create(key, moduleName)]
      ensures forall t :: 0 <= t < |old(issued)| && old(issued)[t].Create? ==> old(issued)[t].key != key
    {
      key := lastKey + 1;
      KeysBounded(issued);
      var ticket := Push(Create(key, moduleName));
    }

    method RemoveModule(key: Key)
      requires Valid()
      modifies this
      ensures Valid() && Served() == old(Served())
      ensures issued == old(issued) + [Remove(key)]
    {
      var ticket := Push(Remove(key));
    }

    method SetAttributes(key: Key, attrs: map<string, string>) returns (ticket: nat)
      requires Valid()
      modifies this
      ensures Valid() && ticket == |old(issued)| && Served() == old(Served())
      ensures issued == old(issued) + [SetAttrs(key, attrs)]
    {
      ticket := Push(SetAttrs(key, attrs));
    }

    method ProcessFrame(key: Key, frame: Frame) returns (ticket: nat)
      requires Valid()
      modifies this
      ensures Valid() && ticket == |old(issued)| && Served() == old(Served())
      ensures issued == old(issued) + [Process(key, frame)]
    {
      ticket := Push(Process(key, frame));
    }

    /** Setting a promise; a second time would be an error. */
    method SetValue(ticket: nat, response: Response)
      requires ticket !in promises
      modifies this`promises, this`settled
      ensures promises == old(promises)[ticket := response]
      ensures settled == old(settled) + [ticket]
    {
      promises := promises[ticket := response];
      settled := settled + [ticket];
    }

    /** One turn of the worker: the oldest request is served, and its promise, if it has one, is set. */
    method Serve()
      requires Valid()
      modifies this
      ensures Valid() && issued == old(issued)
      ensures Served() == old(Served()) + if old(req) == [] then 0 else 1
      ensures settled
              == old(settled) + if old(req) != [] && WantsResponse(old(req)[0].request) then [old(Served())] else []
      ensures forall t: nat :: t < Served() ==> AnsweredWith(py, issued, promises, t)
    {
      if req == [] {
        AllAnswered();
        return;
      }
      hide Keyed, Creations, ModulesAfter, Settled, Answered, AnsweredWith;
      var data := req[0];
      PopQueued(req, issued);
      ServeOne(py, promises, settled, issued, Served());
      req := req[1..];
      if WantsResponse(data.request) {
        SetValue(data.ticket, Answered(py, modules, data.request));
      } else {
        modules := Loaded(modules, data.request);
      }
      AllAnswered();
    }

    lemma AllAnswered()
      requires Valid()
      ensures forall t: nat :: t < Served() ==> AnsweredWith(py, issued, promises, t)
    {
      forall t: nat | t < Served() ensures AnsweredWith(py, issued, promises, t) {
        ServedAnswered(py, promises, settled, issued, Served(), t);
      }
    }
  }

  // ---------- the history of requests ----------

  function Creations(issued: seq<Request>): nat {
    if issued == [] then 0
    else Creations(issued[..|issued| - 1]) + if issued[|issued| - 1].Create? then 1 else 0
  }

  /** Keys count the creations. */
  ghost predicate Keyed(issued: seq<Request>) {
    forall t :: 0 <= t < |issued| && issued[t].Create? ==> issued[t].key == Creations(issued[..t]) + 1
  }

  function ModulesAfter(served: seq<Request>): map<Key, string> {
    if served == [] then map[]
    else Loaded(ModulesAfter(served[..|served| - 1]), served[|served| - 1])
  }

  /** The queue holds the requests not yet served, in order of issue. */
  ghost predicate Queued(req: seq<Entry>, issued: seq<Request>) {
    && |req| <= |issued|
    && forall i :: 0 <= i < |req| ==> req[i] == Entry(|issued| - |req| + i, issued[|issued| - |req| + i])
  }

  /** Of the first n requests exactly those that want a response have one, set once and in order, and it is the
      answer given the modules loaded when the request was served. */
  ghost predicate Settled(py: Python, promises: map<nat, Response>, settled: seq<nat>, issued: seq<Request>, n: nat)
    requires n <= |issued|
  {
    && (forall t: nat :: t in promises <==> t < n && WantsResponse(issued[t]))
    && (forall t: nat :: t in promises ==> promises[t] == Answered(py, ModulesAfter(issued[..t]), issued[t]))
    && (forall t: nat :: t in settled <==> t in promises)
    && (forall i, j :: 0 <= i < j < |settled| ==> settled[i] < settled[j])
  }

  lemma PushKeyed(issued: seq<Request>, r: Request, lastKey: Key)
    requires Keyed(issued) && lastKey == Creations(issued) && (r.Create? ==> r.key == lastKey + 1)
    ensures Keyed(issued + [r]) && Creations(issued + [r]) == if r.Create? then lastKey + 1 else lastKey
  {
    var all := issued + [r];
    assert all[..|issued|] == issued;
    forall t | 0 <= t < |all| && all[t].Create? ensures all[t].key == Creations(all[..t]) + 1 {
      if t < |issued| { assert all[..t] == issued[..t]; }
    }
  }

  lemma PushQueued(req: seq<Entry>, issued: seq<Request>, r: Request)
    requires Queued(req, issued)
    ensures Queued(req + [Entry(|issued|, r)], issued + [r])
    ensures (issued + [r])[..|issued| - |req|] == issued[..|issued| - |req|]
  {
  }

  lemma PopQueued(req: seq<Entry>, issued: seq<Request>)
    requires Queued(req, issued) && req != []
    ensures Queued(req[1..], issued)
    ensures |req| <= |issued| && req[0] == Entry(|issued| - |req|, issued[|issued| - |req|])
  {
  }

  lemma PushSettled(py: Python, promises: map<nat, Response>, settled: seq<nat>, issued: seq<Request>, n: nat,
                    r: Request)
    requires n <= |issued| && Settled(py, promises, settled, issued, n)
    ensures Settled(py, promises, settled, issued + [r], n)
  {
    var all := issued + [r];
    forall t: nat | t in promises ensures promises[t] == Answered(py, ModulesAfter(all[..t]), all[t]) {
      assert all[..t] == issued[..t];
    }
  }

  /** What serving request n makes of the modules and the promises. */
  lemma ServeOne(py: Python, promises: map<nat, Response>, settled: seq<nat>, issued: seq<Request>, n: nat)
    requires n < |issued| && Settled(py, promises, settled, issued, n)
    ensures n !in promises
    ensures ModulesAfter(issued[..n + 1]) == Loaded(ModulesAfter(issued[..n]), issued[n])
    ensures if WantsResponse(issued[n]) then
              var answer := Answered(py, ModulesAfter(issued[..n]), issued[n]);
              Settled(py, promises[n := answer], settled + [n], issued, n + 1)
            else Settled(py, promises, settled, issued, n + 1)
  {
    assert issued[..n + 1][..n] == issued[..n];
    forall i | 0 <= i < |settled| ensures settled[i] < n {
      assert settled[i] in promises;
    }
  }

  lemma {:induction false} CreationsGrow(issued: seq<Request>, s: nat, t: nat)
    requires s <= t <= |issued|
    ensures Creations(issued[..s]) <= Creations(issued[..t])
  {
    if s < t {
      CreationsGrow(issued, s, t - 1);
      assert issued[..t][..t - 1] == issued[..t - 1];
    }
  }

  lemma KeysBounded(issued: seq<Request>)
    requires Keyed(issued)
    ensures forall t :: 0 <= t < |issued| && issued[t].Create? ==> 1 <= issued[t].key <= Creations(issued)
  {
    forall t | 0 <= t < |issued| && issued[t].Create? ensures 1 <= issued[t].key <= Creations(issued) {
      CreationsGrow(issued, t + 1, |issued|);
      assert issued[..t + 1][..t] == issued[..t] && issued[..|issued|] == issued;
    }
  }

  /** No key is handed out twice. */
  lemma KeysUnique(issued: seq<Request>, s: nat, t: nat)
    requires Keyed(issued) && s < t < |issued| && issued[s].Create? && issued[t].Create?
    ensures issued[s].key < issued[t].key
  {
    CreationsGrow(issued, s + 1, t);
    assert issued[..s + 1][..s] == issued[..s];
  }

  /** Request c creates the key and nothing between c and t removes it. */
  ghost predicate LivesFrom(issued: seq<Request>, key: Key, c: nat, t: nat)
    requires t <= |issued|
  {
    && c < t && issued[c].Create? && issued[c].key == key
    && forall r :: c < r < t ==> issued[r] != Remove(key)
  }

  /** A key is found by request t exactly when it was created before and not removed since, and it then names
      the module of that creation. */
  lemma {:induction false} KeyFound(issued: seq<Request>, key: Key, t: nat)
    requires Keyed(issued) && t <= |issued|
    ensures key in ModulesAfter(issued[..t]) <==> exists c: nat :: LivesFrom(issued, key, c, t)
    ensures forall c: nat :: LivesFrom(issued, key, c, t) && key in ModulesAfter(issued[..t]) ==>
                          ModulesAfter(issued[..t])[key] == issued[c].moduleName
  {
    if t > 0 {
      var u := t - 1;
      KeyFound(issued, key, u);
      assert issued[..t][..u] == issued[..u];
      var r := issued[u];
      if r.Create? && r.key == key {
        assert LivesFrom(issued, key, u, t);
        forall c: nat | LivesFrom(issued, key, c, u) ensures false {
          KeysUnique(issued, c, u);
        }
        forall c: nat | LivesFrom(issued, key, c, t) ensures c == u {
          if c < u { KeysUnique(issued, c, u); }
        }
      } else {
        forall c: nat ensures LivesFrom(issued, key, c, t) <==> r != Remove(key) && LivesFrom(issued, key, c, u) {
        }
      }
    }
  }

  /** A frame sent to a plugin between its creation and its removal is processed by the plugin's own module. */
  lemma ProcessReachesModule(py: Python, issued: seq<Request>, c: nat, t: nat)
    requires Keyed(issued) && t < |issued| && issued[t].Process? && LivesFrom(issued, issued[t].key, c, t)
    ensures Answered(py, ModulesAfter(issued[..t]), issued[t])
            == Processed(match py.process(issued[c].moduleName, issued[t].frame)
                         case Some(o) => o
                         case None => NO_OUTCOME)
  {
    KeyFound(issued, issued[t].key, t);
  }

  /** The module that request t finds under a key. */
  ghost predicate Finds(issued: seq<Request>, key: Key, t: nat, moduleName: string)
    requires t <= |issued|
  {
    exists c: nat :: LivesFrom(issued, key, c, t) && issued[c].moduleName == moduleName
  }

  lemma FindsIff(issued: seq<Request>, key: Key, t: nat, moduleName: string)
    requires Keyed(issued) && t <= |issued|
    ensures Finds(issued, key, t, moduleName)
            <==> key in ModulesAfter(issued[..t]) && ModulesAfter(issued[..t])[key] == moduleName
  {
    KeyFound(issued, key, t);
  }

  /** What request t is answered with: a description, whether the module took the attributes, or the outcome of the
      frame; and a creation or removal is not answered. */
  ghost predicate AnsweredWith(py: Python, issued: seq<Request>, promises: map<nat, Response>, t: nat)
    requires t < |issued|
  {
    match issued[t]
    case GetInfo(name) =>
      && t in promises
      && promises[t] == InfoIs(match py.describe(name) case Some(info) => info case None => Info("", Unspecified))
    case SetAttrs(key, attrs) =>
      && t in promises && promises[t].AttrsSet?
      && (promises[t].ok <==> exists name :: Finds(issued, key, t, name) && py.setAttrs(name, attrs) == Some(0))
    case Process(key, frame) =>
      && t in promises && promises[t].Processed?
      && (forall name :: Finds(issued, key, t, name) && py.process(name, frame).Some? ==>
                           promises[t].outcome == py.process(name, frame).value)
      && ((forall name :: Finds(issued, key, t, name) ==> py.process(name, frame).None?) ==>
            promises[t].outcome == Outcome(false, []))
    case _ => t !in promises
  }

  /** Every request served is answered as Python makes it, and none is answered before. */
  lemma ServedAnswered(py: Python, promises: map<nat, Response>, settled: seq<nat>, issued: seq<Request>, n: nat,
                       t: nat)
    requires n <= |issued| && Settled(py, promises, settled, issued, n) && Keyed(issued)
    ensures t < n ==> AnsweredWith(py, issued, promises, t)
    ensures t >= n ==> t !in promises
  {
    hide Keyed, ModulesAfter, LivesFrom, Finds;
    if t < n {
      forall key: Key, name: string
        ensures Finds(issued, key, t, name)
                <==> key in ModulesAfter(issued[..t]) && ModulesAfter(issued[..t])[key] == name
      {
        FindsIff(issued, key, t, name);
      }
    }
  }
}
