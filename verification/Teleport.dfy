/** VMs moving between executers: any run of starts and teleports over any number of hosts. */
module Teleport {
  import opened Executer

  /** A teleport taken by an executer and not yet sent. */
  datatype Request = Request(vm: string, target: string)

  /** A VM that has left and not yet arrived. */
  datatype Transit = Transit(target: string, message: Message)

  /** The records of every host, at most one request at a host, the VMs under way, and the path each VM that was started has
      taken, host by host. No executer knows the paths, nor which VMs were started by the teleport that took them away (`spot`). */
  datatype Cluster = Cluster(records: map<string, seq<Metadata>>, requests: map<string, Request>, transit: map<string, Transit>,
                             path: map<string, seq<string>>, spot: set<string>)

  datatype Event =
    | Start(host: string, vm: string)
    | Ask(host: string, vm: string, target: string)   // a teleport is requested
    | Depart(host: string)
    | Arrive(vm: string)

  function Empty(hosts: set<string>): Cluster {
    Cluster(map h | h in hosts :: [], map[], map[], map[], {})
  }

  function Last(path: seq<string>): string
    requires path != []
  {
    path[|path| - 1]
  }

  /** Nobody else has been asked to send the VM away. */
  predicate Unasked(s: Cluster, host: string, vm: string) {
    forall h :: h in s.requests && h != host ==> s.requests[h].vm != vm
  }

  /** A request is made at the VM's current host, where none is under way; a VM that does not run yet may be anywhere. It must not
      send the VM to the host it is on. */
  predicate Enabled(s: Cluster, e: Event) {
    match e
    case Start(host, vm) => host in s.records && vm !in s.path && Unasked(s, host, vm)
    case Ask(host, vm, target) =>
      && host in s.records && host !in s.requests && Unasked(s, host, vm)
      && (vm in s.path ==> vm !in s.transit && s.path[vm] != [] && Last(s.path[vm]) == host)
      && (var to := Destination(s.records[host], vm, target); to.Some? ==> to.value in s.records && to.value != host)
    case Depart(host) => host in s.records && host in s.requests
    case Arrive(vm) => vm in s.transit && s.transit[vm].target in s.records && vm in s.path
  }

  function Apply(s: Cluster, e: Event): Cluster
    requires Enabled(s, e)
  {
    match e
    case Start(host, vm) =>
      s.(records := s.records[host := s.records[host] + [FirstRecord(vm, host)]], path := s.path[vm := [host]])
    case Ask(host, vm, target) =>
      (match Destination(s.records[host], vm, target)
       case None => s
       case Some(to) => s.(requests := s.requests[host := Request(vm, to)]))
    case Depart(host) =>
      var request := s.requests[host];
      var (records, message) := Departed(s.records[host], request.vm, host);
      Cluster(s.records[host := records], s.requests - {host}, s.transit[request.vm := Transit(request.target, message)],
              if request.vm in s.path then s.path else s.path[request.vm := [host]],
              if request.vm in s.path then s.spot else s.spot + {request.vm})
    case Arrive(vm) =>
      var host := s.transit[vm].target;
      Cluster(s.records[host := Arrived(s.records[host], vm, host, s.transit[vm].message)], s.requests, s.transit - {vm},
              s.path[vm := s.path[vm] + [host]], s.spot)
  }

  predicate IsPrefix(a: seq<string>, b: seq<string>) {
    |a| <= |b| && a == b[..|a|]
  }

  /** Record `i` of a host tells the truth: the VM's first host and the first part of its path, up to this host; and it is a guest
      if it has been elsewhere before. */
  predicate Truthful(s: Cluster, host: string, i: nat)
    requires host in s.records && i < |s.records[host]|
  {
    var r := s.records[host][i];
    && r.name in s.path && r.history != [] && IsPrefix(r.history, s.path[r.name])
    && r.home == r.history[0] && Last(r.history) == host && (r.guest <==> |r.history| > 1)
  }

  /** The VM is here, and record `i` is its newest one on this host. */
  predicate Current(s: Cluster, host: string, i: nat)
    requires host in s.records && i < |s.records[host]|
  {
    var name := s.records[host][i].name;
    name in s.path && name !in s.transit && s.path[name] != [] && Last(s.path[name]) == host && i == Newest(s.records[host], name)
  }

  /** A record says that its VM is up if and only if it is the current one, or the first one of a VM that the teleport itself
      had to start. */
  predicate UpWhere(s: Cluster, host: string, i: nat)
    requires host in s.records && i < |s.records[host]|
  {
    var r := s.records[host][i];
    r.state.Up? <==> Current(s, host, i) || (|r.history| == 1 && r.name in s.spot)
  }

  /** A VM's whereabouts: on the last host of its path, whose newest record of it has exactly that path, or on the way from there
      with a message that has it. */
  predicate Placed(s: Cluster, vm: string)
    requires vm in s.path
  {
    var path := s.path[vm];
    && path != [] && (forall i :: 0 <= i < |path| ==> path[i] in s.records)
    && if vm in s.transit then
         s.transit[vm].message == Message(path[0], path) && s.transit[vm].target in s.records && s.transit[vm].target != Last(path)
       else
         var index := Newest(s.records[Last(path)], vm);
         index >= 0 && s.records[Last(path)][index].history == path && s.records[Last(path)][index].state.Up?
  }

  /** A request is about a VM that is here or was never started. */
  predicate Sound(s: Cluster, host: string)
    requires host in s.requests
  {
    var r := s.requests[host];
    && host in s.records && r.target in s.records && r.target != host && Unasked(s, host, r.vm)
    && (r.vm in s.path ==> r.vm !in s.transit && s.path[r.vm] != [] && Last(s.path[r.vm]) == host)
  }

  predicate RecordsTrue(s: Cluster) {
    && (forall h, i :: h in s.records && 0 <= i < |s.records[h]| ==> Truthful(s, h, i))
    && (forall h, i :: h in s.records && 0 <= i < |s.records[h]| ==> UpWhere(s, h, i))
  }

  predicate AllPlaced(s: Cluster) {
    && (forall vm :: vm in s.path ==> Placed(s, vm))
    && (forall vm :: vm in s.transit ==> vm in s.path)
    && (forall vm :: vm in s.spot ==> vm in s.path && (vm in s.transit || |s.path[vm]| >= 2))
  }

  predicate AllSound(s: Cluster) {
    forall h :: h in s.requests ==> Sound(s, h)
  }

  predicate Inv(s: Cluster) {
    RecordsTrue(s) && AllPlaced(s) && AllSound(s)
  }

  lemma EmptyInv(hosts: set<string>)
    ensures Inv(Empty(hosts))
  {
  }

  lemma NewestMarked(records: seq<Metadata>, index: nat, r: Metadata, name: string)
    requires index < |records| && r.name == records[index].name
    ensures Newest(records[index := r], name) == Newest(records, name)
  {
    NewestIs(records[index := r], name, Newest(records, name));
  }

  lemma StartKeepsRecords(s: Cluster, host: string, vm: string)
    requires Inv(s) && Enabled(s, Start(host, vm))
    ensures RecordsTrue(Apply(s, Start(host, vm)))
  {
    var s' := Apply(s, Start(host, vm));
    forall h, i | h in s'.records && 0 <= i < |s'.records[h]| ensures Truthful(s', h, i) && UpWhere(s', h, i) {
      if h != host || i < |s.records[h]| {
        assert Truthful(s, h, i) && UpWhere(s, h, i);
        NewestAppended(s.records[host], FirstRecord(vm, host), s.records[h][i].name);
      }
    }
  }

  lemma StartKeepsPlaced(s: Cluster, host: string, vm: string)
    requires Inv(s) && Enabled(s, Start(host, vm))
    ensures AllPlaced(Apply(s, Start(host, vm)))
  {
    var s' := Apply(s, Start(host, vm));
    forall v | v in s'.path ensures Placed(s', v) {
      NewestAppended(s.records[host], FirstRecord(vm, host), v);
      assert v != vm ==> Placed(s, v);
    }
  }

  lemma StartKeepsSound(s: Cluster, host: string, vm: string)
    requires Inv(s) && Enabled(s, Start(host, vm))
    ensures AllSound(Apply(s, Start(host, vm)))
  {
    var s' := Apply(s, Start(host, vm));
    forall h | h in s'.requests ensures Sound(s', h) {
      assert Sound(s, h);
    }
  }

  lemma AskKeepsInv(s: Cluster, host: string, vm: string, target: string)
    requires Inv(s) && Enabled(s, Ask(host, vm, target))
    ensures Inv(Apply(s, Ask(host, vm, target)))
  {
    var s' := Apply(s, Ask(host, vm, target));
    forall h, i | h in s'.records && 0 <= i < |s'.records[h]| ensures Truthful(s', h, i) && UpWhere(s', h, i) {
      assert Truthful(s, h, i) && UpWhere(s, h, i);
    }
    forall v | v in s'.path ensures Placed(s', v) {
      assert Placed(s, v);
    }
    forall h | h in s'.requests ensures Sound(s', h) {
      assert h in s.requests ==> Sound(s, h);
    }
  }

  /** The VM of a request has a record where it is, unless it was never started. */
  lemma RequestedRecord(s: Cluster, host: string)
    requires Inv(s) && host in s.requests
    ensures host in s.records && s.requests[host].vm !in s.transit
    ensures var vm := s.requests[host].vm; var index := Newest(s.records[host], vm);
      if vm in s.path then
        && index >= 0 && s.path[vm] != [] && Last(s.path[vm]) == host
        && s.records[host][index].history == s.path[vm] && s.records[host][index].home == s.path[vm][0]
      else index < 0
  {
    assert Sound(s, host);
    var vm := s.requests[host].vm;
    var index := Newest(s.records[host], vm);
    if vm in s.path { assert Placed(s, vm); }
    if index >= 0 { assert Truthful(s, host, index); }
  }

  lemma FirstDepartKeepsTruth(s: Cluster, host: string, h: string, i: nat)
    requires Inv(s) && Enabled(s, Depart(host)) && s.requests[host].vm !in s.path
    requires h in s.records && i < |s.records[h]|
    ensures i < |Apply(s, Depart(host)).records[h]| && Apply(s, Depart(host)).records[h][i] == s.records[h][i]
    ensures Truthful(Apply(s, Depart(host)), h, i)
  {
    RequestedRecord(s, host);
    assert Truthful(s, h, i);
  }

  lemma FirstDepartKeepsOldRecord(s: Cluster, host: string, h: string, i: nat)
    requires Inv(s) && Enabled(s, Depart(host)) && s.requests[host].vm !in s.path
    requires h in s.records && i < |s.records[h]|
    ensures i < |Apply(s, Depart(host)).records[h]|
    ensures Truthful(Apply(s, Depart(host)), h, i) && UpWhere(Apply(s, Depart(host)), h, i)
  {
    FirstDepartKeepsTruth(s, host, h, i);
    RequestedRecord(s, host);
    assert UpWhere(s, h, i) && s.records[h][i].name in s.path by { assert Truthful(s, h, i); }
    NewestAppended(s.records[host], FirstRecord(s.requests[host].vm, host), s.records[h][i].name);
  }

  lemma FirstDepartKeepsRecords(s: Cluster, host: string)
    requires Inv(s) && Enabled(s, Depart(host)) && s.requests[host].vm !in s.path
    ensures RecordsTrue(Apply(s, Depart(host)))
  {
    RequestedRecord(s, host);
    var s' := Apply(s, Depart(host));
    forall h, i | h in s'.records && 0 <= i < |s'.records[h]| ensures Truthful(s', h, i) && UpWhere(s', h, i) {
      if h != host || i < |s.records[h]| { FirstDepartKeepsOldRecord(s, host, h, i); }
    }
  }

  /** The records of the VM that leaves, on the host it leaves. */
  lemma DepartKeepsOwnRecord(s: Cluster, host: string, i: nat)
    requires Inv(s) && Enabled(s, Depart(host)) && s.requests[host].vm in s.path
    requires i < |s.records[host]| && s.records[host][i].name == s.requests[host].vm
    ensures i < |Apply(s, Depart(host)).records[host]|
    ensures Truthful(Apply(s, Depart(host)), host, i) && UpWhere(Apply(s, Depart(host)), host, i)
  {
    RequestedRecord(s, host);
    assert Truthful(s, host, i) && UpWhere(s, host, i);
    assert Placed(s, s.requests[host].vm);
  }

  /** All other records. */
  lemma DepartKeepsOtherRecord(s: Cluster, host: string, h: string, i: nat)
    requires Inv(s) && Enabled(s, Depart(host)) && s.requests[host].vm in s.path
    requires h in s.records && i < |s.records[h]| && (h != host || s.records[h][i].name != s.requests[host].vm)
    ensures i < |Apply(s, Depart(host)).records[h]|
    ensures Truthful(Apply(s, Depart(host)), h, i) && UpWhere(Apply(s, Depart(host)), h, i)
  {
    RequestedRecord(s, host);
    assert Truthful(s, h, i) && UpWhere(s, h, i);
    var index := Newest(s.records[host], s.requests[host].vm);
    NewestMarked(s.records[host], index, s.records[host][index].(state := Teleported), s.records[h][i].name);
  }

  lemma DepartKeepsRecords(s: Cluster, host: string)
    requires Inv(s) && Enabled(s, Depart(host)) && s.requests[host].vm in s.path
    ensures RecordsTrue(Apply(s, Depart(host)))
  {
    var s' := Apply(s, Depart(host));
    forall h, i | h in s'.records && 0 <= i < |s'.records[h]| ensures Truthful(s', h, i) && UpWhere(s', h, i) {
      if h == host && s.records[h][i].name == s.requests[host].vm {
        DepartKeepsOwnRecord(s, host, i);
      } else {
        DepartKeepsOtherRecord(s, host, h, i);
      }
    }
  }

  /** A VM that does not leave stays placed. */
  lemma FirstDepartKeepsOthers(s: Cluster, host: string, v: string)
    requires Inv(s) && Enabled(s, Depart(host)) && s.requests[host].vm !in s.path && v in s.path
    ensures Placed(Apply(s, Depart(host)), v)
  {
    RequestedRecord(s, host);
    assert Placed(s, v);
    NewestAppended(s.records[host], FirstRecord(s.requests[host].vm, host), v);
  }

  lemma DepartKeepsOthers(s: Cluster, host: string, v: string)
    requires Inv(s) && Enabled(s, Depart(host)) && s.requests[host].vm in s.path && v in s.path && v != s.requests[host].vm
    ensures Placed(Apply(s, Depart(host)), v)
  {
    RequestedRecord(s, host);
    assert Placed(s, v);
    var index := Newest(s.records[host], s.requests[host].vm);
    NewestMarked(s.records[host], index, s.records[host][index].(state := Teleported), v);
  }

  lemma DepartKeepsPlaced(s: Cluster, host: string)
    requires Inv(s) && Enabled(s, Depart(host))
    ensures AllPlaced(Apply(s, Depart(host)))
  {
    RequestedRecord(s, host);
    var s' := Apply(s, Depart(host));
    var vm := s.requests[host].vm;
    assert Sound(s, host);
    assert vm in s.path ==> Placed(s, vm);
    forall v | v in s'.path ensures Placed(s', v) {
      if vm !in s.path && v != vm {
        FirstDepartKeepsOthers(s, host, v);
      } else if v != vm {
        DepartKeepsOthers(s, host, v);
      }
    }
  }

  lemma DepartKeepsSound(s: Cluster, host: string)
    requires Inv(s) && Enabled(s, Depart(host))
    ensures AllSound(Apply(s, Depart(host)))
  {
    var s' := Apply(s, Depart(host));
    assert Sound(s, host);
    forall h | h in s'.requests ensures Sound(s', h) {
      assert Sound(s, h);
    }
  }

  lemma ArriveKeepsRecords(s: Cluster, vm: string)
    requires Inv(s) && Enabled(s, Arrive(vm))
    ensures RecordsTrue(Apply(s, Arrive(vm)))
  {
    assert Placed(s, vm);
    var s' := Apply(s, Arrive(vm));
    var host := s.transit[vm].target;
    var r := s'.records[host][|s.records[host]|];
    forall h, i | h in s'.records && 0 <= i < |s'.records[h]| ensures Truthful(s', h, i) && UpWhere(s', h, i) {
      if h != host || i < |s.records[h]| {
        assert Truthful(s, h, i) && UpWhere(s, h, i);
        NewestAppended(s.records[host], r, s.records[h][i].name);
      } else {
        NewestAppended(s.records[host], r, vm);
      }
    }
  }

  lemma ArriveKeepsPlaced(s: Cluster, vm: string)
    requires Inv(s) && Enabled(s, Arrive(vm))
    ensures AllPlaced(Apply(s, Arrive(vm)))
  {
    assert Placed(s, vm);
    var s' := Apply(s, Arrive(vm));
    var host := s.transit[vm].target;
    var r := s'.records[host][|s.records[host]|];
    forall v | v in s'.path ensures Placed(s', v) {
      NewestAppended(s.records[host], r, v);
      assert Placed(s, v);
    }
  }

  lemma ArriveKeepsSound(s: Cluster, vm: string)
    requires Inv(s) && Enabled(s, Arrive(vm))
    ensures AllSound(Apply(s, Arrive(vm)))
  {
    var s' := Apply(s, Arrive(vm));
    forall h | h in s'.requests ensures Sound(s', h) {
      assert Sound(s, h);
    }
  }

  lemma StepKeepsInv(s: Cluster, e: Event)
    requires Inv(s) && Enabled(s, e)
    ensures Inv(Apply(s, e))
  {
    match e
    case Start(host, vm) =>
      StartKeepsRecords(s, host, vm);
      StartKeepsPlaced(s, host, vm);
      StartKeepsSound(s, host, vm);
    case Ask(host, vm, target) =>
      AskKeepsInv(s, host, vm, target);
    case Depart(host) =>
      if s.requests[host].vm in s.path { DepartKeepsRecords(s, host); } else { FirstDepartKeepsRecords(s, host); }
      DepartKeepsPlaced(s, host);
      DepartKeepsSound(s, host);
    case Arrive(vm) =>
      ArriveKeepsRecords(s, vm);
      ArriveKeepsPlaced(s, vm);
      ArriveKeepsSound(s, vm);
  }

  predicate Possible(s: Cluster, events: seq<Event>)
    decreases |events|
  {
    events == [] || (Enabled(s, events[0]) && Possible(Apply(s, events[0]), events[1..]))
  }

  function Run(s: Cluster, events: seq<Event>): Cluster
    requires Possible(s, events)
    decreases |events|
  {
    if events == [] then s else Run(Apply(s, events[0]), events[1..])
  }

  lemma FirstStep(s: Cluster, e: Event, rest: seq<Event>)
    requires Enabled(s, e) && Possible(Apply(s, e), rest)
    ensures Possible(s, [e] + rest) && Run(s, [e] + rest) == Run(Apply(s, e), rest)
  {
    assert ([e] + rest)[1..] == rest;
  }

  lemma {:induction false} RunKeepsInv(s: Cluster, events: seq<Event>)
    requires Inv(s) && Possible(s, events)
    ensures Inv(Run(s, events))
    decreases |events|
  {
    if events != [] {
      StepKeepsInv(s, events[0]);
      RunKeepsInv(Apply(s, events[0]), events[1..]);
    }
  }

  predicate Reachable(hosts: set<string>, events: seq<Event>, s: Cluster) {
    Possible(Empty(hosts), events) && s == Run(Empty(hosts), events)
  }

  lemma ReachableInv(hosts: set<string>, events: seq<Event>, s: Cluster)
    requires Reachable(hosts, events, s)
    ensures Inv(s)
  {
    EmptyInv(hosts);
    RunKeepsInv(Empty(hosts), events);
  }

  /** Wherever a VM is, the newest record of it there has the exact path it took, from its home to here, however many records of
      the VM earlier visits have left. */
  lemma NewestRecordIsPath(hosts: set<string>, events: seq<Event>, s: Cluster, vm: string)
    requires Reachable(hosts, events, s) && vm in s.path && vm !in s.transit
    ensures s.path[vm] != [] && Last(s.path[vm]) in s.records
    ensures var records := s.records[Last(s.path[vm])]; var index := Newest(records, vm);
      index >= 0 && records[index].history == s.path[vm] && records[index].home == s.path[vm][0] && records[index].state.Up?
  {
    ReachableInv(hosts, events, s);
    assert Placed(s, vm);
    var host := Last(s.path[vm]);
    assert Truthful(s, host, Newest(s.records[host], vm));
  }

  /** Every record anywhere has the VM's first host and a first part of its path that ends at the record's host. It says that the
      VM is up if and only if it is the newest record where the VM is, or the first one of a VM that was started by the
      teleport that took it away. */
  lemma RecordsTellTheTruth(hosts: set<string>, events: seq<Event>, s: Cluster, host: string, i: nat)
    requires Reachable(hosts, events, s) && host in s.records && i < |s.records[host]|
    ensures Truthful(s, host, i) && UpWhere(s, host, i)
  {
    ReachableInv(hosts, events, s);
  }

  /** A run in which that second case leaves a record that is out of date: VM "v", never started before, is sent from "a" to "b". */
  lemma StaleRecord()
    ensures var events := [Ask("a", "v", "b"), Depart("a"), Arrive("v")];
      && Possible(Empty({"a", "b"}), events)
      && Run(Empty({"a", "b"}), events).records
         == map["a" := [FirstRecord("v", "a")], "b" := [Metadata("v", "a", ["a", "b"], true, Up)]]
      && Run(Empty({"a", "b"}), events).path == map["v" := ["a", "b"]]
  {
    var s := Empty({"a", "b"});
    var ask, depart, arrive := Ask("a", "v", "b"), Depart("a"), Arrive("v");
    var s1 := Apply(s, ask);
    assert s1.requests == map["a" := Request("v", "b")];
    var s2 := Apply(s1, depart);
    assert s2.transit == map["v" := Transit("b", Message("a", ["a"]))] && s2.path == map["v" := ["a"]];
    var s3 := Apply(s2, arrive);
    assert s3.path == map["v" := ["a"] + ["b"]] && ["a"] + ["b"] == ["a", "b"];
    assert s3.records["a"] == [FirstRecord("v", "a")] && s3.records["b"] == [Metadata("v", "a", ["a"] + ["b"], true, Up)];
    assert s3.records.Keys == {"a", "b"};
    assert Run(s3, []) == s3;
    assert [arrive] + [] == [arrive] && [depart] + [arrive] == [depart, arrive] && [ask] + [depart, arrive] == [ask, depart, arrive];
    FirstStep(s2, arrive, []);
    FirstStep(s1, depart, [arrive]);
    FirstStep(s, ask, [depart, arrive]);
  }

  /** A teleport is under way: the VM still has the path it had when it was requested, and is to go to `to`; or it has gone. */
  predicate Promised(s: Cluster, vm: string, path: seq<string>, to: string) {
    && path != [] && vm in s.path
    && if s.path[vm] == path then
         if vm in s.transit then s.transit[vm].target == to
         else Last(path) in s.requests && s.requests[Last(path)] == Request(vm, to)
       else IsPrefix(path + [to], s.path[vm])
  }

  lemma DepartKeepsPromise(s: Cluster, host: string, vm: string, path: seq<string>, to: string)
    requires Inv(s) && Enabled(s, Depart(host)) && Promised(s, vm, path, to)
    ensures Promised(Apply(s, Depart(host)), vm, path, to)
  {
    assert Sound(s, host);
    if Last(path) in s.requests { assert Sound(s, Last(path)); }
  }

  lemma StepKeepsPromise(s: Cluster, e: Event, vm: string, path: seq<string>, to: string)
    requires Inv(s) && Enabled(s, e) && Promised(s, vm, path, to)
    ensures Promised(Apply(s, e), vm, path, to)
  {
    if e.Depart? {
      DepartKeepsPromise(s, e.host, vm, path, to);
    } else if Last(path) in s.requests {
      assert Sound(s, Last(path));
    }
  }

  lemma {:induction false} RunKeepsPromise(s: Cluster, events: seq<Event>, vm: string, path: seq<string>, to: string)
    requires Inv(s) && Possible(s, events) && Promised(s, vm, path, to)
    ensures Promised(Run(s, events), vm, path, to)
    decreases |events|
  {
    if events != [] {
      StepKeepsInv(s, events[0]);
      StepKeepsPromise(s, events[0], vm, path, to);
      RunKeepsPromise(Apply(s, events[0]), events[1..], vm, path, to);
    }
  }

  /** A teleport to "home" from where the VM is can be taken if and only if the VM is not at home already; and then, whatever
      else happens, the next host the VM is on is the one it was first started on. */
  lemma HomeReturns(hosts: set<string>, events: seq<Event>, s: Cluster, vm: string, host: string)
    requires Reachable(hosts, events, s) && vm in s.path && vm !in s.transit && host !in s.requests
    requires s.path[vm] != [] && host == Last(s.path[vm])
    ensures Enabled(s, Ask(host, vm, "home")) <==> host != s.path[vm][0]
    ensures Enabled(s, Ask(host, vm, "home")) ==>
              forall more | Possible(Apply(s, Ask(host, vm, "home")), more) ::
                var s' := Run(Apply(s, Ask(host, vm, "home")), more);
                vm in s'.path && (s'.path[vm] == s.path[vm] || IsPrefix(s.path[vm] + [s.path[vm][0]], s'.path[vm]))
  {
    NewestRecordIsPath(hosts, events, s, vm);
    ReachableInv(hosts, events, s);
    assert Placed(s, vm);
    NotAskedElsewhere(s, vm, host);
    var ask := Ask(host, vm, "home");
    if Enabled(s, ask) {
      var s1 := Apply(s, ask);
      StepKeepsInv(s, ask);
      forall more | Possible(s1, more) ensures Promised(Run(s1, more), vm, s.path[vm], s.path[vm][0]) {
        RunKeepsPromise(s1, more, vm, s.path[vm], s.path[vm][0]);
      }
    }
  }

  lemma NotAskedElsewhere(s: Cluster, vm: string, host: string)
    requires Inv(s) && vm in s.path && s.path[vm] != [] && host == Last(s.path[vm])
    ensures Unasked(s, host, vm)
  {
    forall h | h in s.requests && h != host ensures s.requests[h].vm != vm {
      assert Sound(s, h);
    }
  }

  /** A teleport that was taken can always be carried out, and extends the VM's path by the host it was requested for. */
  lemma TeleportArrives(hosts: set<string>, events: seq<Event>, s: Cluster, host: string)
    requires Reachable(hosts, events, s) && host in s.requests
    ensures var r := s.requests[host];
      && Possible(s, [Depart(host), Arrive(r.vm)])
      && r.vm in Run(s, [Depart(host), Arrive(r.vm)]).path
      && Run(s, [Depart(host), Arrive(r.vm)]).path[r.vm] == (if r.vm in s.path then s.path[r.vm] else [host]) + [r.target]
  {
    ReachableInv(hosts, events, s);
    assert Sound(s, host);
    RequestedRecord(s, host);
    var s1 := Apply(s, Depart(host));
    var arrive := Arrive(s.requests[host].vm);
    FirstStep(s1, arrive, []);
    FirstStep(s, Depart(host), [arrive]);
  }

  /** A request for a VM that was never started: it is still to come, or the VM is on its way as promised. */
  predicate PromisedFirst(s: Cluster, vm: string, host: string, to: string) {
    if vm in s.path then Promised(s, vm, [host], to)
    else host in s.requests && s.requests[host] == Request(vm, to)
  }

  lemma StepKeepsPromisedFirst(s: Cluster, e: Event, vm: string, host: string, to: string)
    requires Inv(s) && Enabled(s, e) && PromisedFirst(s, vm, host, to)
    ensures PromisedFirst(Apply(s, e), vm, host, to)
  {
    if vm in s.path {
      StepKeepsPromise(s, e, vm, [host], to);
    } else {
      assert Sound(s, host);
      if e.Depart? { assert Sound(s, e.host); }
    }
  }

  lemma {:induction false} RunKeepsPromisedFirst(s: Cluster, events: seq<Event>, vm: string, host: string, to: string)
    requires Inv(s) && Possible(s, events) && PromisedFirst(s, vm, host, to)
    ensures PromisedFirst(Run(s, events), vm, host, to)
    decreases |events|
  {
    if events != [] {
      StepKeepsInv(s, events[0]);
      StepKeepsPromisedFirst(s, events[0], vm, host, to);
      RunKeepsPromisedFirst(Apply(s, events[0]), events[1..], vm, host, to);
    }
  }

  /** A request with a plain address is possible if and only if the address is that of another host; and then, whatever else
      happens, that is the next host the VM is on. */
  lemma AddressIsReached(hosts: set<string>, events: seq<Event>, s: Cluster, vm: string, host: string, target: string)
    requires Reachable(hosts, events, s) && vm in s.path && vm !in s.transit && host !in s.requests && target != "home"
    requires s.path[vm] != [] && host == Last(s.path[vm])
    ensures Enabled(s, Ask(host, vm, target)) <==> target in s.records && target != host
    ensures Enabled(s, Ask(host, vm, target)) ==>
              forall more | Possible(Apply(s, Ask(host, vm, target)), more) ::
                var s' := Run(Apply(s, Ask(host, vm, target)), more);
                vm in s'.path && (s'.path[vm] == s.path[vm] || IsPrefix(s.path[vm] + [target], s'.path[vm]))
  {
    ReachableInv(hosts, events, s);
    assert Placed(s, vm);
    NotAskedElsewhere(s, vm, host);
    var ask := Ask(host, vm, target);
    if Enabled(s, ask) {
      var s1 := Apply(s, ask);
      StepKeepsInv(s, ask);
      forall more | Possible(s1, more) ensures Promised(Run(s1, more), vm, s.path[vm], target) {
        RunKeepsPromise(s1, more, vm, s.path[vm], target);
      }
    }
  }

  /** The same for a VM that was never started: once it has left `host` it goes to the address asked for. */
  lemma FirstAddressIsReached(hosts: set<string>, events: seq<Event>, s: Cluster, vm: string, host: string, target: string)
    requires Reachable(hosts, events, s) && vm !in s.path && host in s.records && host !in s.requests && target != "home"
    requires Unasked(s, host, vm)
    ensures Enabled(s, Ask(host, vm, target)) <==> target in s.records && target != host
    ensures Enabled(s, Ask(host, vm, target)) ==>
              forall more | Possible(Apply(s, Ask(host, vm, target)), more) ::
                var s' := Run(Apply(s, Ask(host, vm, target)), more);
                vm in s'.path ==> s'.path[vm] == [host] || IsPrefix([host] + [target], s'.path[vm])
  {
    ReachableInv(hosts, events, s);
    var ask := Ask(host, vm, target);
    if Enabled(s, ask) {
      var s1 := Apply(s, ask);
      StepKeepsInv(s, ask);
      forall more | Possible(s1, more) ensures PromisedFirst(Run(s1, more), vm, host, target) {
        RunKeepsPromisedFirst(s1, more, vm, host, target);
      }
    }
  }

  /** "home" for a VM that was never started is refused: nothing changes. */
  lemma HomeIsRefused(hosts: set<string>, events: seq<Event>, s: Cluster, vm: string, host: string)
    requires Reachable(hosts, events, s) && vm !in s.path && Enabled(s, Ask(host, vm, "home"))
    ensures Apply(s, Ask(host, vm, "home")) == s
  {
    ReachableInv(hosts, events, s);
    forall i | 0 <= i < |s.records[host]| ensures s.records[host][i].name != vm {
      assert Truthful(s, host, i);
    }
  }
}
