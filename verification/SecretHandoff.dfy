/** The one-time secret handoff: published by a hard link, recovered after any interruption.

    Two names matter, the final one and the pending one beside it.  A process can be killed between any two
    file operations (and in the middle of a write), an operation can fail, and power can be lost: then every
    directory change not yet synchronised may or may not have reached the disk, each name on its own, and a
    file not yet synchronised holds anything. */
module SecretHandoff {
  import opened Options

  const HANDOFF_LIMIT := 1_500_000

  datatype Name = Pending | Final

  datatype Inode = Inode(data: string, synced: bool)

  /** `live` is the directory processes see, `stored` the directory on stable storage. */
  datatype Disk = Disk(live: map<Name, nat>, stored: map<Name, nat>, inodes: seq<Inode>) {

    ghost predicate Consistent() {
      && (forall n | n in live :: live[n] < |inodes|)
      && (forall n | n in stored :: stored[n] < |inodes|)
    }

    function Links(i: nat): nat {
      (if Pending in live && live[Pending] == i then 1 else 0) + (if Final in live && live[Final] == i then 1 else 0)
    }

    function Create(): Disk {
      this.(live := live[Pending := |inodes|], inodes := inodes + [Inode("", false)])
    }

    function Write(i: nat, data: string): Disk
      requires i < |inodes|
    {
      this.(inodes := inodes[i := Inode(data, false)])
    }

    function SyncFile(i: nat): Disk
      requires i < |inodes|
    {
      this.(inodes := inodes[i := inodes[i].(synced := true)])
    }

    function Link(): Disk
      requires Pending in live
    {
      this.(live := live[Final := live[Pending]])
    }

    function Unlink(n: Name): Disk {
      this.(live := live - {n})
    }

    function SyncDirectory(): Disk {
      this.(stored := live)
    }

    /** `kept` are the names whose directory entry reached the disk in its latest form; `torn` is what
        unsynchronised files turn out to hold. */
    function PowerLoss(kept: set<Name>, torn: nat -> string): (d: Disk)
    {
      var names := map n | n in live.Keys + stored.Keys && n in (if n in kept then live.Keys else stored.Keys)
        :: if n in kept then live[n] else stored[n];
      Disk(names, names, seq(|inodes|, i requires 0 <= i < |inodes| =>
        if inodes[i].synced then inodes[i] else Inode(torn(i), true)))
    }

    /** What a reader finds under the final name. */
    function Published(): (text: Option<string>)
      requires Final in live ==> live[Final] < |inodes|
    {
      if Final in live then Some(inodes[live[Final]].data) else None
    }

    predicate Empty() {
      Pending !in live && Final !in live && Pending !in stored && Final !in stored
    }

    ghost predicate CompleteAt(i: nat, texts: set<string>) {
      i < |inodes| && inodes[i].synced && inodes[i].data in texts
    }

    /** Wherever the final name exists, live or stored, it names one of the complete texts. */
    ghost predicate Safe(texts: set<string>) {
      && Consistent()
      && (Final in live ==> CompleteAt(live[Final], texts))
      && (Final in stored ==> CompleteAt(stored[Final], texts))
    }
  }

  /** The link count of a file is the number of names it bears. */
  lemma LinksMean(d: Disk, i: nat)
    ensures d.Links(i) == |set n: Name | n in d.live && d.live[n] == i|
  {
    var names := set n: Name | n in d.live && d.live[n] == i;
    var pending := if Pending in names then {Pending} else {};
    var final := if Final in names then {Final} else {};
    forall n | n in names
      ensures n == Pending || n == Final
    {
      match n
      case Pending =>
      case Final =>
    }
    assert names == pending + final;
  }

  /** After a loss of power every name is the one its directory entry had, live if it was kept and stored if not, and a
      file holds what was synchronised, or anything. */
  lemma PowerLossMeans(d: Disk, kept: set<Name>, torn: nat -> string, n: Name, i: nat)
    requires i < |d.inodes|
    ensures var entries, after := if n in kept then d.live else d.stored, d.PowerLoss(kept, torn);
            && (n in after.live <==> n in entries) && (n in entries ==> after.live[n] == entries[n])
            && after.stored == after.live && |after.inodes| == |d.inodes|
            && after.inodes[i] == if d.inodes[i].synced then d.inodes[i] else Inode(torn(i), true)
  {
  }

  lemma PowerLossSafe(d: Disk, kept: set<Name>, torn: nat -> string, texts: set<string>)
    requires d.Safe(texts)
    ensures d.PowerLoss(kept, torn).Safe(texts)
    ensures d.PowerLoss(kept, torn).Published() in {d.Published(), d.(live := d.stored).Published()}
  {
  }

  /** Once a directory change is synchronised, losing power does not undo it. */
  lemma SyncedSurvives(d: Disk, kept: set<Name>, torn: nat -> string)
    requires d.Consistent() && d.stored == d.live && (Final in d.live ==> d.inodes[d.live[Final]].synced)
    ensures d.PowerLoss(kept, torn).live == d.live && d.PowerLoss(kept, torn).Published() == d.Published()
  {
    assert d.PowerLoss(kept, torn).live == d.live;
  }

  /** How an operation or a protocol run ends: normally, with an operating-system error, or killed. */
  datatype Status = Done | Failed | Killed

  datatype Publication = Written | AlreadyPresent | NotWritten(status: Status)

  datatype Recovery = Loaded(text: string) | Absent | Unsafe | TooLarge | Invalid | NotLoaded(status: Status)

  /** How many operations fail. */
  function Failures(faults: seq<bool>): nat {
    if faults == [] then 0 else (if faults[0] then 1 else 0) + Failures(faults[1..])
  }

  class HandoffDirectory {
    var disk: Disk
    /** Operations left before the running process is killed. */
    var budget: nat
    /** Which of the coming operations fail; none beyond these. */
    var faults: seq<bool>
    /** How much of a write that is cut short reaches the file. */
    var cut: nat
    /** Whether a text parses to a JSON object. */
    const parses: string -> bool

    constructor (parses: string -> bool)
      ensures disk == Disk(map[], map[], []) && this.parses == parses
    {
      disk, budget, faults, cut, this.parses := Disk(map[], map[], []), 0, [], 0, parses;
    }

    /** Every operation passes here first. */
    method Attempt() returns (status: Status)
      modifies `budget, `faults
      ensures status == if old(budget) == 0 then Killed else if old(faults) != [] && old(faults)[0] then Failed else Done
      ensures faults == if old(budget) == 0 || old(faults) == [] then old(faults) else old(faults)[1..]
      ensures budget == if status == Killed then 0 else old(budget) - 1
    {
      if budget == 0 {
        return Killed;
      }
      budget := budget - 1;
      status := Done;
      if faults != [] {
        status, faults := if faults[0] then Failed else Done, faults[1..];
      }
    }

    method Unlink(n: Name) returns (status: Status)
      modifies `disk, `budget, `faults
      ensures disk == if status == Done then old(disk).Unlink(n) else old(disk)
      ensures status == Killed ==> old(budget) == 0
      ensures Failures(faults) == if status == Failed then Failures(old(faults)) - 1 else Failures(old(faults))
      ensures budget == if old(budget) == 0 then 0 else old(budget) - 1
      ensures old(budget) > 0 && Failures(old(faults)) == 0 ==> status == Done
    {
      status := Attempt();
      if status == Done {
        disk := disk.Unlink(n);
      }
    }

    method SyncDirectory() returns (status: Status)
      modifies `disk, `budget, `faults
      ensures disk == if status == Done then old(disk).SyncDirectory() else old(disk)
      ensures status == Killed ==> old(budget) == 0
      ensures Failures(faults) == if status == Failed then Failures(old(faults)) - 1 else Failures(old(faults))
      ensures budget == if old(budget) == 0 then 0 else old(budget) - 1
      ensures old(budget) > 0 && Failures(old(faults)) == 0 ==> status == Done
    {
      status := Attempt();
      if status == Done {
        disk := disk.SyncDirectory();
      }
    }

    method Link() returns (status: Status)
      requires Pending in disk.live
      modifies `disk, `budget, `faults
      ensures disk == if status == Done then old(disk).Link() else old(disk)
      ensures status == Killed ==> old(budget) == 0
      ensures Failures(faults) == if status == Failed then Failures(old(faults)) - 1 else Failures(old(faults))
      ensures budget == if old(budget) == 0 then 0 else old(budget) - 1
      ensures old(budget) > 0 && Failures(old(faults)) == 0 ==> status == Done
    {
      status := Attempt();
      if status == Done {
        disk := disk.Link();
      }
    }

    function Beginning(text: string): string
      reads `cut
    {
      if cut < |text| then text[..cut] else text
    }

    /** Creates the pending file, writes the text and synchronises it; stops anywhere, even inside the write. */
    method WritePending(text: string) returns (status: Status)
      requires disk.Consistent() && Pending !in disk.live
      modifies `disk, `budget, `faults
      ensures disk.Consistent() && disk.stored == old(disk.stored)
      ensures disk.live == old(disk.live) || disk.live == old(disk.live)[Pending := |old(disk.inodes)|]
      ensures |disk.inodes| >= |old(disk.inodes)| && disk.inodes[..|old(disk.inodes)|] == old(disk.inodes)
      ensures status == Done ==> disk.live == old(disk.live)[Pending := |old(disk.inodes)|]
      ensures status == Done ==> disk.inodes == old(disk.inodes) + [Inode(text, true)]
      ensures Failures(faults) == if status == Failed then Failures(old(faults)) - 1 else Failures(old(faults))
      ensures status != Killed ==> budget >= old(budget) - 3
      ensures old(budget) >= 3 ==> status != Killed
      ensures old(budget) >= 3 && Failures(old(faults)) == 0 ==> status == Done && budget == old(budget) - 3
      ensures old(budget) == 1 && Failures(old(faults)) == 0 ==>
        disk == old(disk).Create().Write(|old(disk.inodes)|, Beginning(text))
    {
      var i := |disk.inodes|;
      status := Attempt();
      if status != Done {
        return;
      }
      disk := disk.Create();
      status := Attempt();
      if status != Done {
        disk := disk.Write(i, Beginning(text));
        return;
      }
      disk := disk.Write(i, text);
      status := Attempt();
      if status == Done {
        disk := disk.SyncFile(i);
      }
    }

    /** `_cleanup_secret_handoff_pending`; `safe` is false where it reports the pending path as unsafe. */
    method CleanupPending() returns (safe: bool, status: Status)
      requires disk.Consistent()
      modifies `disk, `budget, `faults
      ensures safe
      ensures disk.inodes == old(disk.inodes)
      ensures disk.live == old(disk.live) || disk.live == old(disk.live) - {Pending}
      ensures disk.stored == old(disk.stored) || disk.stored == disk.live
      ensures status == Done ==> Pending !in disk.live
      ensures status == Done && Pending in old(disk.live) ==> disk.stored == disk.live
      ensures Failures(faults) == if status == Failed then Failures(old(faults)) - 1 else Failures(old(faults))
      ensures Pending !in old(disk.live) ==> status == Done && disk == old(disk) && budget == old(budget)
      ensures old(budget) >= 2 && Failures(old(faults)) == 0 ==> status == Done && budget >= old(budget) - 2
    {
      if Pending !in disk.live {
        return true, Done;
      }
      var links := disk.Links(disk.live[Pending]);
      safe := links == 1 || (links == 2 && Final in disk.live && disk.live[Final] == disk.live[Pending]
                             && disk.Links(disk.live[Final]) == 2);
      if !safe {
        return safe, Done;
      }
      status := Unlink(Pending);
      if status == Done {
        status := SyncDirectory();
      }
    }

    /** Links the finished pending file to the final name and removes the pending name. */
    method Publish(text: string, ghost texts: set<string>) returns (published: bool, status: Status)
      requires disk.Safe(texts) && text in texts
      requires Pending in disk.live && Final !in disk.live && disk.inodes[disk.live[Pending]] == Inode(text, true)
      modifies `disk, `budget, `faults
      ensures disk.Safe(texts)
      ensures disk.Published() == if published then Some(text) else None
      ensures !published ==> status != Done && disk == old(disk)
      ensures Failures(faults) == if status == Failed then Failures(old(faults)) - 1 else Failures(old(faults))
      ensures !published && status == Failed ==> budget >= old(budget) - 1
      ensures old(budget) >= 4 ==> status != Killed
      ensures status == Done ==> Pending !in disk.live && disk.stored == disk.live
      ensures old(budget) >= 4 && Failures(old(faults)) == 0 ==> status == Done
    {
      status := Link();
      published := status == Done;
      if status == Done {
        status := SyncDirectory();
      }
      if status == Done && published {
        status := Unlink(Pending);
        if status == Done {
          status := SyncDirectory();
        }
      }
    }

    /** The handler of `_write_secret_handoff`: an unpublished pending file is removed. */
    method Withdraw(ghost texts: set<string>)
      requires disk.Safe(texts) && Final !in disk.live
      modifies `disk, `budget, `faults
      ensures disk.Safe(texts) && Final !in disk.live
      ensures old(budget) >= 2 && Failures(old(faults)) == 0 ==> Pending !in disk.live
    {
      if Pending in disk.live {
        var status := Unlink(Pending);
        if status == Done {
          status := SyncDirectory();
        }
      }
    }

    /** `_write_secret_handoff`.  Until the link the final name is absent, from the link on it holds the text.  If one
        operation fails before the link, what was written is withdrawn. */
    method WriteHandoff(text: string, ghost texts: set<string>) returns (outcome: Publication)
      requires disk.Safe(texts)
      modifies `disk, `budget, `faults
      ensures disk.Safe(texts + {text})
      ensures Final in old(disk.live) ==> disk.Published() == old(disk.Published()) && outcome != Written
      ensures Final !in old(disk.live) ==> disk.Published() in {None, Some(text)} && outcome != AlreadyPresent
      ensures outcome == Written ==> disk.Published() == Some(text) && Pending !in disk.live && disk.stored == disk.live
      ensures old(budget) >= 9 && Failures(old(faults)) == 0 ==> outcome == if Final in old(disk.live) then AlreadyPresent else Written
      ensures old(budget) >= 11 && Failures(old(faults)) <= 1 && Pending !in old(disk.live)
              && outcome.NotWritten? && Final !in disk.live ==>
        Pending !in disk.live
    {
      var safe, status := CleanupPending();
      if status != Done {
        return NotWritten(status);
      }
      if Final in disk.live {
        return AlreadyPresent;
      }
      status := WritePending(text);
      var published := false;
      if status == Done {
        published, status := Publish(text, texts + {text});
      }
      if status == Failed && !published {
        Withdraw(texts + {text});
      }
      outcome := if status == Done then Written else NotWritten(status);
    }

    /** `_load_secret_handoff`.  With `recover`, what is too large or does not parse is discarded. */
    method LoadHandoff(recover: bool, ghost texts: set<string>) returns (outcome: Recovery)
      requires disk.Safe(texts) && forall t | t in texts :: parses(t)
      modifies `disk, `budget, `faults
      ensures disk.Safe(texts)
      ensures outcome != Unsafe && outcome != Invalid
      ensures disk.Published() == old(disk.Published()) ||
              (recover && disk.Published() == None && |old(disk.Published()).value| > HANDOFF_LIMIT)
      ensures outcome.Loaded? ==> old(disk.Published()) == Some(outcome.text) && |outcome.text| <= HANDOFF_LIMIT
      ensures outcome == Absent ==> Pending !in disk.live && Final !in disk.live
      ensures outcome == Absent && old(disk.live) != disk.live ==> disk.Empty()
      ensures old(budget) >= 4 && Failures(old(faults)) == 0 ==>
        outcome == Expected(old(disk).Published(), recover) && Pending !in disk.live
    {
      var safe, status := CleanupPending();
      if !safe {
        return Unsafe;
      }
      if status != Done {
        return NotLoaded(status);
      }
      if Final !in disk.live {
        assert Pending !in old(disk.live) ==> disk.live == old(disk.live);
        return Absent;
      }
      var i := disk.live[Final];
      if disk.Links(i) != 1 {
        return Unsafe;
      }
      var text := disk.inodes[i].data;
      if |text| <= HANDOFF_LIMIT && parses(text) {
        return Loaded(text);
      }
      if !recover {
        return if |text| > HANDOFF_LIMIT then TooLarge else Invalid;
      }
      status := Unlink(Final);
      if status == Done {
        status := SyncDirectory();
      }
      outcome := if status == Done then Absent else NotLoaded(status);
    }
  }

  /** One thing that happens to the directory: a writer or a loader runs, possibly cut short, or power is lost. */
  datatype Event =
    | WriteRun(text: string, budget: nat, faults: seq<bool>, cut: nat)
    | LoadRun(recover: bool, budget: nat, faults: seq<bool>)
    | PowerLost(kept: set<Name>, torn: nat -> string)

  /** Every text a writer was ever started with. */
  ghost function Texts(history: seq<Event>): set<string> {
    set e | e in history && e.WriteRun? :: e.text
  }

  lemma TextsNext(history: seq<Event>, i: nat)
    requires i < |history|
    ensures Texts(history[..i + 1]) == Texts(history[..i]) + if history[i].WriteRun? then {history[i].text} else {}
  {
    assert history[..i + 1] == history[..i] + [history[i]];
  }

  /** What an event does to the disk; what it does when it is cut short is only bounded. */
  ghost predicate Happens(before: Disk, e: Event, after: Disk) {
    && before.Consistent() && after.Consistent()
    && match e
       case PowerLost(kept, torn) => after == before.PowerLoss(kept, torn)
       case WriteRun(text, budget, faults, _) =>
         if Final in before.live then after.Published() == before.Published()
         else if budget >= 9 && Failures(faults) == 0 then after.Published() == Some(text)
         else after.Published() in {None, Some(text)}
       case LoadRun(recover, budget, faults) =>
         var discards := recover && Final in before.live && |before.Published().value| > 1_500_000;
         if budget >= 4 && Failures(faults) == 0
         then Pending !in after.live && after.Published() == if discards then None else before.Published()
         else after.Published() == before.Published() || (discards && after.Published() == None)
  }

  /** The disks between the events of a history, from an empty one on. */
  ghost predicate Ran(trace: seq<Disk>, history: seq<Event>) {
    && |trace| == |history| + 1 && trace[0] == Disk(map[], map[], [])
    && forall i | 0 <= i < |history| :: Happens(trace[i], history[i], trace[i + 1])
  }

  /** One event. */
  method Happen(directory: HandoffDirectory, e: Event, ghost texts: set<string>)
    requires directory.disk.Safe(texts) && forall t | t in texts :: directory.parses(t)
    modifies directory
    ensures Happens(old(directory.disk), e, directory.disk)
    ensures directory.disk.Safe(texts + if e.WriteRun? then {e.text} else {})
  {
    match e {
      case WriteRun(text, budget, faults, cut) =>
        directory.budget, directory.faults, directory.cut := budget, faults, cut;
        var outcome := directory.WriteHandoff(text, texts);
      case LoadRun(recover, budget, faults) =>
        directory.budget, directory.faults := budget, faults;
        var outcome := directory.LoadHandoff(recover, texts);
        assert texts + {} == texts;
      case PowerLost(kept, torn) =>
        PowerLossSafe(directory.disk, kept, torn, texts);
        directory.disk := directory.disk.PowerLoss(kept, torn);
        assert texts + {} == texts;
    }
  }

  /** Any number of interrupted writers and loaders and power losses, in any order. */
  method RunHistory(directory: HandoffDirectory, history: seq<Event>) returns (ghost trace: seq<Disk>)
    requires directory.disk == Disk(map[], map[], [])
    requires forall t | t in Texts(history) :: directory.parses(t)
    modifies directory
    ensures directory.disk.Safe(Texts(history))
    ensures Ran(trace, history) && directory.disk == trace[|history|]
  {
    hide Happens;
    trace := [directory.disk];
    for i := 0 to |history|
      invariant directory.disk.Safe(Texts(history[..i]))
      invariant |trace| == i + 1 && trace[0] == Disk(map[], map[], []) && trace[i] == directory.disk
      invariant forall j | 0 <= j < i :: Happens(trace[j], history[j], trace[j + 1])
    {
      TextsNext(history, i);
      assert Texts(history[..i]) <= Texts(history);
      Happen(directory, history[i], Texts(history[..i]));
      trace := trace + [directory.disk];
    }
    assert history[..|history|] == history;
  }

  /** After any history, recovery left alone returns a text that was written, whole, or nothing; after nothing, a
      new handoff can be written, and it is what the next recovery returns if it fits the limit. */
  method RecoverAndRetry(history: seq<Event>, retry: string, parses: string -> bool)
    returns (recovered: Recovery, rewritten: Publication, reloaded: Recovery, ghost trace: seq<Disk>)
    requires parses(retry) && forall t | t in Texts(history) :: parses(t)
    ensures Ran(trace, history) && trace[|history|].Consistent()
    ensures recovered == Expected(trace[|history|].Published(), true)
    ensures recovered == Absent || (recovered.Loaded? && recovered.text in Texts(history))
    ensures recovered == Absent ==> rewritten == Written
    ensures recovered == Absent ==> reloaded == if |retry| <= 1_500_000 then Loaded(retry) else Absent
    ensures recovered.Loaded? ==> rewritten == AlreadyPresent && reloaded == recovered
  {
    hide Happens;
    var directory := new HandoffDirectory(parses);
    trace := RunHistory(directory, history);
    directory.budget, directory.faults := 4, [];
    recovered := directory.LoadHandoff(true, Texts(history));
    directory.budget, directory.faults := 9, [];
    rewritten := directory.WriteHandoff(retry, Texts(history));
    directory.budget, directory.faults := 4, [];
    reloaded := directory.LoadHandoff(true, Texts(history) + {retry});
  }

  /** What an uninterrupted load answers, as a function of what was published. */
  function Expected(published: Option<string>, recover: bool): Recovery {
    match published
    case None => Absent
    case Some(text) => if |text| <= HANDOFF_LIMIT then Loaded(text) else if recover then Absent else TooLarge
  }
}
