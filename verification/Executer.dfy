/** One host's executer (c/executer/executer.c): the list of records about the VMs that were started or arrived here, and what
    starting, sending and receiving a VM does to it. */
module Executer {
  import opened Wrappers

  datatype VmState = Up | Teleported

  /** What is kept about a VM; `history` lists the hosts it has been on. */
  datatype Metadata = Metadata(name: string, home: string, history: seq<string>, guest: bool, state: VmState)

  /** What travels with a VM. */
  datatype Message = Message(home: string, history: seq<string>)

  /** The last record of a name, or -1. */
  function Newest(records: seq<Metadata>, name: string): (index: int)
    ensures -1 <= index < |records|
    ensures index >= 0 ==> records[index].name == name
    ensures forall i :: index < i < |records| ==> records[i].name != name
  {
    if records == [] then -1
    else if records[|records| - 1].name == name then |records| - 1
    else Newest(records[..|records| - 1], name)
  }

  lemma {:induction false} NewestIs(records: seq<Metadata>, name: string, index: int)
    requires -1 <= index < |records|
    requires index >= 0 ==> records[index].name == name
    requires forall i :: index < i < |records| ==> records[i].name != name
    ensures Newest(records, name) == index
  {
    if index < |records| - 1 {
      NewestIs(records[..|records| - 1], name, index);
    }
  }

  lemma NewestAppended(records: seq<Metadata>, r: Metadata, name: string)
    ensures Newest(records + [r], name) == if r.name == name then |records| else Newest(records, name)
  {
    assert (records + [r])[..|records|] == records;
  }

  /** The record of a VM first started on `host`. */
  function FirstRecord(name: string, host: string): Metadata {
    Metadata(name, host, [host], false, Up)
  }

  /** The source's side of a teleport: the records afterwards and the message. A VM without a record is started on the spot; its
      new record is not marked. */
  function Departed(records: seq<Metadata>, name: string, host: string): (seq<Metadata>, Message) {
    var index := Newest(records, name);
    if index < 0 then (records + [FirstRecord(name, host)], Message(host, [host]))
    else (records[index := records[index].(state := Teleported)], Message(records[index].home, records[index].history))
  }

  /** The target's side. */
  function Arrived(records: seq<Metadata>, name: string, host: string, message: Message): seq<Metadata> {
    records + [Metadata(name, message.home, message.history + [host], true, Up)]
  }

  /** The address a teleport goes to: "home" stands for the home in the last record; without a record it is refused. */
  function Destination(records: seq<Metadata>, name: string, target: string): Option<string> {
    if target != "home" then Some(target)
    else if Newest(records, name) < 0 then None
    else Some(records[Newest(records, name)].home)
  }

  /** A VM handed over from `host` to `target`: the newest record there has the home that the newest record here has, and its
      history goes on where that one's ends. A VM without a record here has this host as home and as only history. */
  lemma Handover(records: seq<Metadata>, name: string, host: string, others: seq<Metadata>, target: string)
    ensures var (_, message) := Departed(records, name, host);
      var there := Arrived(others, name, target, message);
      var here := Newest(records, name);
      && Newest(there, name) == |others| == |there| - 1
      && there[|others|].home == (if here < 0 then host else records[here].home)
      && there[|others|].history == (if here < 0 then [host] else records[here].history) + [target]
      && Destination(there, name, "home") == Some(if here < 0 then host else records[here].home)
      && forall other :: other != name ==> Newest(there, other) == Newest(others, other)
  {
    var (_, message) := Departed(records, name, host);
    var there := Arrived(others, name, target, message);
    forall other ensures Newest(there, other) == if other == name then |others| else Newest(others, other) {
      NewestAppended(others, there[|others|], other);
    }
  }

  /** The array of records grows by fives: what it holds room for when `len` are in it. */
  function Capacity(len: nat): (r: nat)
    ensures len <= r && (len % 5 != 0 ==> len < r)
  {
    if len == 0 then 5 else (len + 4) / 5 * 5
  }

  lemma CapacityStep(len: nat)
    ensures Capacity(len + 1) == if len % 5 == 0 then len + 5 else Capacity(len)
  {
  }

  /** A larger array with the same first `len` records. */
  method Reallocated(a: array<Metadata>, len: nat, size: nat) returns (larger: array<Metadata>)
    requires len <= a.Length && len <= size
    ensures fresh(larger) && larger.Length == size && larger[..len] == a[..len]
  {
    larger := new Metadata[size];
    for i := 0 to len
      invariant larger[..i] == a[..i]
    {
      larger[i] := a[i];
    }
  }

  class Host {
    const ip: string
    var metadatas: array<Metadata>
    var len: nat
    var vmName: string
    var targetIp: string

    ghost predicate Valid()
      reads this
    {
      metadatas.Length == Capacity(len)
    }

    ghost function Records(): seq<Metadata>
      requires Valid()
      reads this, metadatas
    {
      metadatas[..len]
    }

    constructor (ip: string)
      ensures Valid() && fresh(metadatas) && this.ip == ip && Records() == []
    {
      this.ip := ip;
      metadatas := new Metadata[5];
      len := 0;
      vmName := "";
      targetIp := "";
    }

    /** Appends a record, within the array: it is reallocated whenever the count is a multiple of five. */
    method AddMetadata(md: Metadata)
      requires Valid()
      modifies this`metadatas, this`len, metadatas
      ensures Valid() && Records() == old(Records()) + [md]
      ensures metadatas == old(metadatas) || fresh(metadatas)
    {
      if len % 5 == 0 {
        metadatas := Reallocated(metadatas, len, len + 5);
      }
      CapacityStep(len);
      metadatas[len] := md;
      len := len + 1;
    }

    /** Starts a VM at the organizer's request. */
    method StartVm(name: string)
      requires Valid()
      modifies this`metadatas, this`len, metadatas
      ensures Valid() && Records() == old(Records()) + [FirstRecord(name, ip)]
      ensures metadatas == old(metadatas) || fresh(metadatas)
    {
      AddMetadata(Metadata(name, ip, [ip], false, Up));
    }

    /** The search runs through the whole list, so that the last record of the name is found. */
    method FindMetadata(name: string) returns (index: int)
      requires Valid()
      ensures index == Newest(Records(), name)
    {
      index := -1;
      for i := 0 to len
        invariant -1 <= index < i && (index >= 0 ==> metadatas[index].name == name)
        invariant forall j :: index < j < i ==> metadatas[j].name != name
      {
        if metadatas[i].name == name { index := i; }
      }
      NewestIs(Records(), name, index);
    }

    /** Takes a teleport request; when `ok`, the VM will be sent to `targetIp`. */
    method Request(name: string, target: string) returns (ok: bool)
      requires Valid()
      modifies this`vmName, this`targetIp
      ensures Valid() && vmName == name
      ensures ok <==> Destination(Records(), name, target).Some?
      ensures ok ==> Some(targetIp) == Destination(Records(), name, target)
    {
      vmName := name;
      ok := true;
      targetIp := target;
      if targetIp == "home" {
        var index := FindMetadata(name);
        ok := index >= 0;
        if ok { targetIp := metadatas[index].home; }
      }
    }

    /** Sends the requested VM once the target is ready. */
    method SendVm() returns (message: Message)
      requires Valid()
      modifies this`metadatas, this`len, metadatas
      ensures Valid() && (Records(), message) == Departed(old(Records()), vmName, ip)
      ensures metadatas == old(metadatas) || fresh(metadatas)
    {
      var index := FindMetadata(vmName);
      if index < 0 {
        AddMetadata(Metadata(vmName, ip, [ip], false, Up));
        message := Message(ip, [ip]);
      } else {
        message := Message(metadatas[index].home, metadatas[index].history);
        metadatas[index] := metadatas[index].(state := Teleported);
      }
    }

    method ReceiveVm(name: string, message: Message)
      requires Valid()
      modifies this`metadatas, this`len, metadatas
      ensures Valid() && Records() == Arrived(old(Records()), name, ip, message)
      ensures metadatas == old(metadatas) || fresh(metadatas)
    {
      AddMetadata(Metadata(name, message.home, message.history + [ip], true, Up));
    }
  }
}
