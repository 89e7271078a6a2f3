/** The restart-safe acceptance run.

    Four commands drive the saved record through eight statuses.  Between commands, and whenever a process is
    killed, only the state file, the two handoff files, the sealed output and the server remain.  A command is
    given a budget of effects (saves, file publications and removals, server requests); when it is used up the
    process is gone.  No budget means the command is left alone and the server cooperates. */
module AcceptanceRun {
  import opened AcceptanceWorld
  import opened Options
  import opened ResumeRecord

  /** The budget after so many effects. */
  function Spent(budget: Option<nat>, effects: nat): Option<nat> {
    if budget.Some? then Some(if budget.value >= effects then budget.value - effects else 0) else None
  }

  /** The budget lasts for so many effects. */
  predicate Lasts(budget: Option<nat>, effects: nat) {
    budget.Some? ==> budget.value >= effects
  }

  /** What connecting the source costs. */
  function ConnectCost(f: Facts): nat {
    (if Source in f.known then 0 else 2) + if Sync in f.known then 0 else 2
  }

  /** What a run bootstrapped has left to do up to the external review, with so many upload keys used. */
  function PrepareCost(f: Facts, used: nat): nat {
    ConnectCost(f) + 6 + EvidenceCost(f, used) + 3 + ProbeCost(f)
  }

  /** What submitting the evidence costs: an authorisation request for every used key and a new one, unless the blob is
      there, and two imports or one. */
  function EvidenceCost(f: Facts, used: nat): nat {
    if Blob in f.known then 2 else used + 5
  }

  function ProbeCost(f: Facts): nat {
    if f.probed then 3 else 0
  }

  /** What taking up a saved record costs: a handoff that is complete saves asking again, one that is not is removed. */
  function ResumeCost(w: World): nat
    requires w.saved.Some?
  {
    if w.saved.value.status != BootstrapPrepared then 0
    else if w.credential.None? then 3
    else if w.credential.value.fits then 1 else 4
  }

  /** What is left to do of a start. */
  function StartCost(w: World, used: nat, inputs: Inputs, h: Hashing): nat {
    if w.saved.None? then 4 + PrepareCost(Facts({}, NewHead(inputs, h).Some?), 0)
    else if Rank(w.saved.value.status) >= 2 then 0
    else ResumeCost(w) + PrepareCost(FactsOf(w.saved.value), used)
  }

  /** What the saved record and the handoff leave to do of a review request: one save with a handoff that is kept; else
      the removal of one that is not, the intent, the claim, the handoff and the save. */
  function RequestCost(w: World): nat {
    if w.saved.None? || Rank(w.saved.value.status) >= 4 then 0
    else if w.review.Some? && ReviewFits(w) then 1
    else (if w.review.Some? then 1 else 0) + IntentCost(w.saved.value) + 3
  }

  function IntentCost(r: Record): nat {
    if r.status == AwaitingExternalReview then 1 else 0
  }

  /** What is left to do of a submission: the intent, the submission and the save; removing the handoff comes after it. */
  function SubmitCost(w: World): nat {
    if w.saved.None? || Rank(w.saved.value.status) >= 6 then 0
    else if w.saved.value.status == ReviewClaimed then 3 else 2
  }

  /** What is left to do of a finalisation: the seal, unless it is there, and the save. */
  function FinalizeCost(w: World): nat {
    if w.saved.None? || w.saved.value.status == Complete then 0 else if w.output.Some? then 1 else 2
  }

  class Runner {
    var world: World
    /** Effects left before the process is killed; none: it is left alone and the server cooperates. */
    var budget: Option<nat>
    /** The upload keys used so far. */
    ghost var keys: seq<string>
    const h: Hashing

    ghost predicate Valid()
      reads this
    {
      Inv(world, keys, h)
    }

    constructor (h: Hashing)
      ensures world == FRESH && keys == [] && this.h == h
    {
      world, budget, keys, this.h := FRESH, None, [], h;
    }

    /** Every effect passes here first. */
    method Alive() returns (alive: bool)
      modifies `budget
      ensures alive <==> old(budget) != Some(0)
      ensures budget == Spent(old(budget), if alive then 1 else 0)
    {
      if budget.None? {
        return true;
      }
      alive := budget.value > 0;
      if alive {
        budget := Some(budget.value - 1);
      }
    }

    /** `_save`: the record is replaced whole, by one that moves the run forward and keeps the invariant; cut short, it
        leaves the old one. */
    method Save(r: Record) returns (alive: bool)
      requires Valid() && Inv(world.(saved := Some(r)), keys, h) && Forward(world.saved, Some(r))
      modifies `world, `budget
      ensures Valid() && Forward(old(world).saved, world.saved)
      ensures world == if alive then old(world).(saved := Some(r)) else old(world)
      ensures alive <==> old(budget) != Some(0)
      ensures budget == Spent(old(budget), if alive then 1 else 0)
    {
      hide Inv, Origin;
      alive := Alive();
      if alive {
        world := world.(saved := Some(r));
      }
    }

    /** Identities the server answers with: any, for exactly the keys asked for. */
    static method Identities(asked: IdKey -> bool) returns (ids: map<IdKey, string>)
      ensures forall k :: k in ids <==> asked(k)
    {
      var chosen: string := *;
      ids := map k: IdKey | asked(k) :: chosen;
    }

    /** Digests the server answers with. */
    static method Digests(asked: HashKey -> bool) returns (hashes: map<HashKey, string>)
      ensures forall k :: k in hashes <==> asked(k)
    {
      var chosen: string := *;
      hashes := map k: HashKey | asked(k) :: chosen;
    }

    // ---- start ---------------------------------------------------------------------------------

    /** `_bootstrap`: one request under the saved key, the credential handoff, then PREPARING. */
    method Bootstrap(state: Record) returns (r: Record, alive: bool)
      requires Valid() && world.saved == Some(state) && state.status == BootstrapPrepared && world.credential.None?
      modifies `world, `budget
      ensures Valid() && Forward(old(world).saved, world.saved)
      ensures alive ==> world.saved == Some(r) && r.status == Preparing && FactsOf(r) == FactsOf(state)
      ensures alive ==> TakenFrom(r, world.credential)
                        && world.server.bootstrapRequests == old(world).server.bootstrapRequests + 1
      ensures !alive ==> world.saved == old(world).saved
      ensures Untouched(old(world), world)
      ensures alive <==> Lasts(old(budget), 3)
      ensures alive ==> budget == Spent(old(budget), 3)
    {
      hide Inv, Origin, FactsOf;
      FirstInv(world, keys, h);
      r := state;
      alive := Alive();
      if !alive {
        return;
      }
      CredentialKeepsInv(world, BootstrapRequested(world, state), state, keys, h);
      world := BootstrapRequested(world, state);
      alive := Alive();
      if !alive {
        return;
      }
      var ids := Identities(IsOrganization);
      var fits: bool := *;
      var credential := Some(CredentialFile(state.runId, state.hashes[BootstrapRequest], ids, fits));
      CredentialKeepsInv(world, world.(credential := credential), state, keys, h);
      world := world.(credential := credential);
      r := Bootstrapped(state, ids);
      BootstrappedKeepsInv(world, state, ids, keys, h);
      alive := Save(r);
    }

    /** `_reconcile_bootstrap_handoff`: a complete credential handoff is taken up instead of asking again. */
    method Reconcile(state: Record) returns (r: Record, found: bool, alive: bool)
      requires Valid() && world.saved == Some(state) && state.status == BootstrapPrepared
      modifies `world, `budget
      ensures Valid() && Forward(old(world).saved, world.saved)
      ensures alive && found ==> world.saved == Some(r) && r.status == Preparing && FactsOf(r) == FactsOf(state)
      ensures alive && found ==> TakenFrom(r, world.credential)
      ensures !alive ==> world.saved == old(world).saved
      ensures alive && !found ==> world.saved == old(world).saved && r == state && world.credential.None?
      ensures Untouched(old(world), world) && world.server == old(world).server
      ensures old(world).credential.Some? && old(world).credential.value.fits ==> world.credential == old(world).credential
      ensures old(world).credential.Some? && old(world).credential.value.fits && alive ==> found
      ensures alive <==> old(world).credential.None? || old(budget) != Some(0)
      ensures alive ==> budget == Spent(old(budget), if old(world).credential.None? then 0 else 1)
      ensures found <==> HasCredential(old(world))
    {
      hide Inv, Origin, FactsOf, IsOrganization;
      r, found, alive := state, false, true;
      if world.credential.None? {
        return;
      }
      CredentialKnown(world, state, keys, h);
      var c := world.credential.value;
      if !c.fits {
        alive := Alive();
        if alive {
          world := world.(credential := None);
        }
        return;
      }
      found := true;
      r := Bootstrapped(state, c.ids);
      BootstrappedKeepsInv(world, state, c.ids, keys, h);
      alive := Save(r);
    }

    /** A request answered with the same identities however often it is sent, and the save after it. */
    method Import(resource: Resource, state: Record) returns (r: Record, alive: bool)
      requires Valid() && world.saved == Some(state) && state.status == Preparing
      requires resource == Sync ==> Source in FactsOf(state).known
      modifies `world, `budget
      ensures Valid() && Forward(old(world).saved, world.saved) && OnlySaved(old(world), world)
      ensures alive ==> world.saved == Some(r) && r.status == Preparing
      ensures !alive ==> world == old(world)
      ensures alive ==> FactsOf(r) == FactsAfter(FactsOf(state), resource)
      ensures alive <==> Lasts(old(budget), 2)
      ensures alive ==> budget == Spent(old(budget), 2)
    {
      hide Inv, Origin, FactsOf, FactsAfter;
      r := state;
      alive := Alive();
      if !alive {
        return;
      }
      var ids := Identities((k: IdKey) => GivesId(resource, k));
      var hashes := Digests((k: HashKey) => GivesHash(resource, k));
      r := Learnt(state, ids, hashes);
      LearntKeepsInv(world, state, ids, hashes, keys, h, resource);
      alive := Save(r);
    }

    /** The authorisation loop of `_submit_evidence`: at most sixteen keys of the chain are tried, each used key
        answering with its authorisation but no token. */
    method AuthorizeUpload(state: Record) returns (obtained: bool, alive: bool, requests: nat)
      requires Valid() && world.saved == Some(state) && state.status == Preparing
      modifies `world, `budget, `keys
      ensures Valid() && world.saved == old(world).saved
      ensures world.(server := old(world).server) == old(world)
      ensures world.server.(uploads := old(world).server.uploads) == old(world).server
      ensures old(keys) <= keys && |keys| <= |old(keys)| + 1
      ensures obtained ==> alive && |keys| == |old(keys)| + 1 && UploadsLeft(old(world), old(keys), h)
      ensures !obtained ==> keys == old(keys) && world == old(world)
      ensures alive ==> obtained == UploadsLeft(old(world), old(keys), h)
      ensures alive ==> requests == if obtained then |old(keys)| + 1 else 16
      ensures alive <==> Lasts(old(budget), if UploadsLeft(old(world), old(keys), h) then |old(keys)| + 1 else 16)
      ensures alive ==> budget == Spent(old(budget), requests)
    {
      hide Inv, UploadChain, KeyAfter, Pins, UploadKey;
      var evidence := h.evidence(Pins(state));
      var key := UploadKey(evidence, h);
      obtained, alive, requests := false, true, 0;
      ChainInv(world, state, keys, h);
      ghost var left := UploadsLeft(world, keys, h);
      ghost var n: nat := 0;
      while requests < 16 && !obtained
        invariant requests <= 16 && alive && budget == Spent(old(budget), requests) && Lasts(old(budget), requests)
        invariant !obtained ==> world == old(world) && keys == old(keys) && n <= |keys|
        invariant !obtained ==> key == KeyAfter(world.server.uploads, keys, n, evidence, h)
        invariant !obtained && n != requests ==>
          n < requests && KeyAfter(world.server.uploads, keys, |keys|, evidence, h) in world.server.uploads
        invariant !obtained && left ==> requests <= |old(keys)|
        invariant obtained ==> left && |keys| == |old(keys)| + 1 && old(keys) <= keys && requests == |keys|
        invariant Valid() && world.saved == old(world).saved && world.(server := old(world).server) == old(world)
        invariant world.server.(uploads := old(world).server.uploads) == old(world).server
      {
        alive := Alive();
        if !alive {
          return;
        }
        if n < |keys| {
          KeyAfterUsed(world.server.uploads, keys, n, evidence, h);
        }
        requests := requests + 1;
        if key in world.server.uploads {
          n := NextTried(world.server.uploads, keys, n, evidence, h);
          key := UploadKey(key + ":" + world.server.uploads[key], h);
        } else {
          var id: string := *;
          UploadKeepsInv(world, state, keys, h, id);
          world := world.(server := world.server.(uploads := world.server.uploads[key := id]));
          keys := keys + [key];
          obtained := true;
        }
      }
    }

    /** `_submit_evidence`. */
    method SubmitEvidence(state: Record) returns (r: Record, outcome: Outcome)
      requires Valid() && world.saved == Some(state) && state.status == Preparing
      modifies `world, `budget, `keys
      ensures Valid() && Forward(old(world).saved, world.saved) && OnlySavedAndUploads(old(world), world)
      ensures outcome == Done ==> world.saved == Some(r) && r.status == Preparing
      ensures outcome == Done ==> FactsOf(r) == FactsAfter(FactsAfter(FactsOf(state), Blob), EvidenceManifest)
      ensures old(budget).None? ==> budget.None?
      ensures old(budget).None? ==>
        outcome == if Blob in FactsOf(state).known || UploadsLeft(old(world), old(keys), h) then Done else Refused
      ensures Blob !in FactsOf(state).known && !UploadsLeft(old(world), old(keys), h) ==>
        outcome != Done && world == old(world) && keys == old(keys)
      ensures outcome == Done <==>
        && (Blob in FactsOf(state).known || UploadsLeft(old(world), old(keys), h))
        && Lasts(old(budget), EvidenceCost(FactsOf(state), |old(keys)|))
      ensures outcome == Done ==> budget == Spent(old(budget), EvidenceCost(FactsOf(state), |old(keys)|))
      ensures Blob !in FactsOf(state).known && UploadsLeft(old(world), old(keys), h)
              && old(budget) == Some(|old(keys)| + 1) ==>
        outcome == Killed && |keys| == |old(keys)| + 1 && world.saved == old(world).saved
      ensures world.saved.Some? && FactsOf(world.saved.value).probed == FactsOf(state).probed
      ensures outcome != Done ==> Rank(world.saved.value.status) == 1
    {
      hide Inv, Origin, UploadsLeft;
      r := state;
      var alive := true;
      if EvidenceBlobId !in state.identities {
        var obtained, requests;
        obtained, alive, requests := AuthorizeUpload(state);
        if !alive || !obtained {
          return r, if alive then Refused else Killed;
        }
        r, alive := Import(Blob, state);
        if !alive {
          return r, Killed;
        }
      }
      r, alive := Import(EvidenceManifest, r);
      outcome := if alive then Done else Killed;
    }

    /** The stale-head probe: the newer head must be ingested as new, so a repeated ingestion is refused. */
    method StaleProbe(state: Record) returns (r: Record, outcome: Outcome)
      requires Valid() && world.saved == Some(state) && state.status == Preparing
      modifies `world, `budget
      ensures Valid() && Forward(old(world).saved, world.saved)
      ensures ProbeOnly(old(world), world) && SameGate(state, world.saved.value)
      ensures outcome == Done ==> world.saved == Some(r) && r.status == Preparing
      ensures outcome == Done ==> FactsOf(r) == if FactsOf(state).probed then FactsAfter(FactsOf(state), Probe) else FactsOf(state)
      ensures outcome == Done && FactsOf(state).probed ==> world.server.newHead
      ensures old(budget).None? ==> budget.None?
      ensures old(budget).None? ==> outcome == if FactsOf(state).probed && old(world).server.newHead then Refused else Done
      ensures world.saved.Some? && FactsOf(world.saved.value).probed == FactsOf(state).probed
      ensures FactsOf(state).probed && old(world).server.newHead ==> outcome != Done && world.server.newHead
      ensures outcome == Done <==>
        !(FactsOf(state).probed && old(world).server.newHead) && Lasts(old(budget), ProbeCost(FactsOf(state)))
      ensures outcome == Done ==> budget == Spent(old(budget), ProbeCost(FactsOf(state)))
      ensures outcome != Done ==> Rank(world.saved.value.status) == 1
    {
      r := state;
      if NewHeadCommit !in state.hashes {
        return r, Done;
      }
      var alive;
      r, alive := Import(Probe, state);
      if !alive {
        return r, Killed;
      }
      alive := Alive();
      if !alive {
        return r, Killed;
      }
      if world.server.newHead {
        return r, Refused;
      }
      world := world.(server := world.server.(newHead := true));
      outcome := Done;
    }

    /** The source connection and its synchronisation, each once. */
    method ConnectSource(state: Record) returns (r: Record, alive: bool)
      requires Valid() && world.saved == Some(state) && state.status == Preparing
      modifies `world, `budget
      ensures Valid() && Forward(old(world).saved, world.saved) && OnlySaved(old(world), world)
      ensures world.saved.Some? && world.saved.value.status == Preparing
      ensures SameGate(state, world.saved.value)
      ensures alive ==> world.saved == Some(r)
      ensures alive ==> FactsOf(r) == FactsAfter(FactsAfter(FactsOf(state), Source), Sync)
      ensures alive <==> Lasts(old(budget), ConnectCost(FactsOf(state)))
      ensures alive ==> budget == Spent(old(budget), ConnectCost(FactsOf(state)))
    {
      hide Inv, Origin;
      r, alive := state, true;
      if SourceConnectionId !in r.identities {
        r, alive := Import(Source, r);
        if !alive {
          return;
        }
      }
      if SyncRunId !in r.identities {
        r, alive := Import(Sync, r);
      }
    }

    /** The imports of the work item, the policy and the pull-request diff. */
    method ImportIntent(state: Record) returns (r: Record, alive: bool)
      requires Valid() && world.saved == Some(state) && state.status == Preparing
      modifies `world, `budget
      ensures Valid() && Forward(old(world).saved, world.saved) && OnlySaved(old(world), world)
      ensures world.saved.Some? && world.saved.value.status == Preparing
      ensures SameGate(state, world.saved.value)
      ensures alive ==> world.saved == Some(r)
      ensures alive ==> FactsOf(r) == FactsAfter(FactsAfter(FactsAfter(FactsOf(state), Work), Policy), Diff)
      ensures alive <==> Lasts(old(budget), 6)
      ensures alive ==> budget == Spent(old(budget), 6)
    {
      hide Inv, Origin;
      r, alive := Import(Work, state);
      if !alive {
        return;
      }
      r, alive := Import(Policy, r);
      if !alive {
        return;
      }
      r, alive := Import(Diff, r);
    }

    /** The process is killed just after it ingested the newer head, before it saves. */
    ghost predicate KilledAfterProbe(w: World, used: seq<string>, budget: Option<nat>)
      requires w.saved.Some?
    {
      var f := FactsOf(w.saved.value);
      Blob !in f.known && f.probed && !w.server.newHead && UploadsLeft(w, used, h)
      && budget == Some(ConnectCost(f) + 6 + (|used| + 5) + 5)
    }

    /** The process is killed just after its upload was authorised. */
    ghost predicate KilledAfterUpload(w: World, used: seq<string>, budget: Option<nat>)
      requires w.saved.Some?
    {
      var f := FactsOf(w.saved.value);
      Blob !in f.known && UploadsLeft(w, used, h) && budget == Some(ConnectCost(f) + 6 + (|used| + 1))
    }

    /** `_start_once` once the run is bootstrapped. */
    method Prepare(state: Record) returns (outcome: Outcome)
      requires Valid() && world.saved == Some(state) && state.status == Preparing
      modifies `world, `budget, `keys
      ensures Valid() && Forward(old(world).saved, world.saved) && PreparationOnly(old(world), world)
      ensures world.saved.Some?
      ensures world.saved.value.status == if outcome == Done then AwaitingExternalReview else Preparing
      ensures Blocked(old(world), old(keys), h) ==> outcome != Done && Blocked(world, keys, h)
      ensures KilledAfterProbe(old(world), old(keys), old(budget)) ==> Blocked(world, keys, h)
      ensures KilledAfterUpload(old(world), old(keys), old(budget)) ==>
        outcome == Killed && |keys| == |old(keys)| + 1
        && Blob !in FactsOf(world.saved.value).known && {Source, Sync} <= FactsOf(world.saved.value).known
      ensures outcome == Done <==>
        && CanPrepare(FactsOf(state), old(world).server, UploadsLeft(old(world), old(keys), h))
        && Lasts(old(budget), PrepareCost(FactsOf(state), |old(keys)|))
      ensures old(budget).None? ==> budget.None?
      ensures old(budget).None? ==>
        outcome == if CanPrepare(FactsOf(state), old(world).server, UploadsLeft(old(world), old(keys), h)) then Done
                   else Refused
    {
      hide Inv, Origin, FactsOf, UploadsLeft;
      var r, alive;
      r, alive := ConnectSource(state);
      SameUploads(old(world), world, keys, h);
      if !alive {
        return Killed;
      }
      r, alive := ImportIntent(r);
      SameUploads(old(world), world, keys, h);
      if !alive {
        return Killed;
      }
      r, outcome := SubmitEvidence(r);
      if outcome != Done {
        return;
      }
      outcome := FinishPreparing(r);
    }

    /** The assurance run, the stale probe if there is one, and the record that awaits the review. */
    method FinishPreparing(state: Record) returns (outcome: Outcome)
      requires Valid() && world.saved == Some(state) && state.status == Preparing
      requires FactsOf(state).known >= {Source, Sync, Work, Policy, Diff, Blob, EvidenceManifest}
      modifies `world, `budget
      ensures Valid() && Forward(old(world).saved, world.saved) && ProbeOnly(old(world), world)
      ensures world.saved.Some? && SameGate(state, world.saved.value)
      ensures world.saved.value.status == if outcome == Done then AwaitingExternalReview else Preparing
      ensures FactsOf(state).probed && old(world).server.newHead ==> outcome != Done && world.server.newHead
      ensures FactsOf(state).probed && !old(world).server.newHead && old(budget) == Some(5) ==>
        outcome == Killed && world.server.newHead
      ensures outcome == Done <==>
        !(FactsOf(state).probed && old(world).server.newHead) && Lasts(old(budget), 3 + ProbeCost(FactsOf(state)))
      ensures old(budget).None? ==> budget.None?
      ensures old(budget).None? ==> outcome == if FactsOf(state).probed && old(world).server.newHead then Refused else Done
    {
      hide Inv, Origin;
      var r, alive := Import(Assurance, state);
      if !alive {
        return Killed;
      }
      r, outcome := StaleProbe(r);
      if outcome != Done {
        return;
      }
      AwaitingKeepsInv(world, r, keys, h);
      alive := Save(r.(status := AwaitingExternalReview));
      outcome := if alive then Done else Killed;
    }

    /** The first part of `_start_once` where a record is saved. */
    method Resume(inputs: Inputs) returns (state: Record, outcome: Outcome)
      requires Valid() && world.saved.Some?
      modifies `world, `budget
      ensures Valid() && Forward(old(world).saved, world.saved) && Untouched(old(world), world)
      ensures HasCredential(old(world)) ==> world.server == old(world).server && world.credential == old(world).credential
      ensures outcome == Refused <==> !Resumable(old(world), inputs, h)
      ensures outcome == Refused ==> world == old(world)
      ensures outcome == Done ==> world.saved == Some(state) && Rank(state.status) >= 1 && Matches(state, inputs, h)
      ensures outcome == Done && Rank(old(world).saved.value.status) >= 1 ==>
        world == old(world) && budget == old(budget)
      ensures outcome == Done && Rank(old(world).saved.value.status) == 0 ==>
        state.status == Preparing && FactsOf(state) == FactsOf(old(world).saved.value)
      ensures outcome == Killed ==> Rank(world.saved.value.status) == 0
      ensures outcome == Done <==> Resumable(old(world), inputs, h) && Lasts(old(budget), ResumeCost(old(world)))
      ensures outcome == Done ==> budget == Spent(old(budget), ResumeCost(old(world)))
      ensures old(budget).None? ==> budget.None? && outcome != Killed
    {
      hide Inv, Origin, FactsOf, Matches, TakenFrom;
      state := world.saved.value;
      if !Matches(state, inputs, h) {
        return state, Refused;
      }
      var alive := true;
      if state.status == BootstrapPrepared {
        var found;
        state, found, alive := Reconcile(state);
        if alive && !found {
          state, alive := Bootstrap(state);
        }
        MatchesAfter(old(world).saved.value, world.saved.value, inputs, h);
      }
      outcome := if alive then Done else Killed;
    }

    /** The first part of `_start_once` where no record is saved: the intent is saved before the server is asked. */
    method Begin(inputs: Inputs, now: string) returns (state: Record, alive: bool)
      requires Valid() && world.saved.None?
      modifies `world, `budget
      ensures Valid() && Untouched(old(world), world)
      ensures old(world) == FRESH && keys == []
      ensures alive ==> world.saved == Some(state) && state.status == Preparing && Matches(state, inputs, h)
      ensures alive ==> FactsOf(state) == Facts({}, NewHead(inputs, h).Some?)
      ensures !alive && world.saved.Some? ==> Rank(world.saved.value.status) == 0
      ensures alive <==> Lasts(old(budget), 4)
      ensures alive ==> budget == Spent(old(budget), 4)
    {
      hide Inv, Origin, FactsOf, Matches, NewRecord;
      FirstInv(world, keys, h);
      state := NewRecord(inputs, now, h);
      NewRecordKeepsInv(inputs, now, h);
      NewRecordFacts(inputs, now, h);
      alive := Save(state);
      if alive {
        ghost var started := state;
        state, alive := Bootstrap(state);
        MatchesAfter(started, world.saved.value, inputs, h);
      }
    }

    /** `start`. */
    method Start(inputs: Inputs, now: string) returns (outcome: Outcome)
      requires Valid()
      modifies `world, `budget, `keys
      ensures Valid() && Forward(old(world).saved, world.saved)
      ensures world.review == old(world).review && world.output == old(world).output
      ensures world.server.claims == old(world).server.claims && world.server.submission == old(world).server.submission
      ensures !Resumable(old(world), inputs, h) ==> outcome == Refused && world == old(world)
      ensures HasCredential(old(world)) ==> world.server.bootstrapRequests == old(world).server.bootstrapRequests
                                            && world.credential == old(world).credential
      ensures Blocked(old(world), old(keys), h) ==> Blocked(world, keys, h)
      ensures outcome == Done ==> AtStage(world, inputs, 2, 7, h)
      ensures outcome != Done && Resumable(old(world), inputs, h) ==>
        world.saved.None? || Rank(world.saved.value.status) <= 1
      ensures world.saved.Some? && Rank(world.saved.value.status) > 2 ==> world == old(world)
      ensures outcome == Done <==>
        && CanStart(old(world), old(keys), inputs, h)
        && Lasts(old(budget), StartCost(old(world), |old(keys)|, inputs, h))
      ensures old(budget).None? ==> budget.None?
      ensures old(budget).None? ==> outcome == if CanStart(old(world), old(keys), inputs, h) then Done else Refused
      ensures old(world).saved.None? && NewHead(inputs, h).Some? && old(budget) == Some(24) ==> Blocked(world, keys, h)
      ensures old(world).saved.None? && old(budget) == Some(15) ==> UploadInterrupted(world, keys, 1, inputs, h)
      ensures UploadInterrupted(old(world), old(keys), |old(keys)|, inputs, h) && UploadsLeft(old(world), old(keys), h)
              && old(budget) == Some(|old(keys)| + 7) ==>
        UploadInterrupted(world, keys, |old(keys)| + 1, inputs, h)
    {
      hide Inv, Origin, FactsOf, Matches, UploadsLeft;
      var state;
      if world.saved.Some? {
        state, outcome := Resume(inputs);
        SameUploads(old(world), world, keys, h);
      } else {
        var alive;
        state, alive := Begin(inputs, now);
        FirstUploadLeft(world, h);
        outcome := if alive then Done else Killed;
      }
      if outcome == Done && Rank(state.status) == 1 {
        outcome := Prepare(state);
        MatchesAfter(state, world.saved.value, inputs, h);
      }
    }

    // ---- review-request ------------------------------------------------------------------------

    /** The intent to claim is saved before the server is asked. */
    method PrepareClaim(state: Record) returns (r: Record, alive: bool)
      requires Valid() && world.saved == Some(state) && 2 <= Rank(state.status) <= 3
      modifies `world, `budget
      ensures Valid() && Forward(old(world).saved, world.saved) && OnlySaved(old(world), world)
      ensures alive ==> world.saved == Some(r) && r.status == ReviewClaiming
      ensures !alive ==> world == old(world)
      ensures alive <==> Lasts(old(budget), IntentCost(state))
      ensures alive ==> budget == Spent(old(budget), IntentCost(state))
    {
      hide Inv;
      r, alive := state, true;
      if state.status == AwaitingExternalReview {
        ClaimingKeepsInv(world, state, keys, h);
        r := Recorded(state, ReviewClaiming, ReviewClaimIdempotency, ClaimKeyFor(state, h));
        alive := Save(r);
      }
    }

    /** The server grants one claim per key, and repeats it when asked again under that key. */
    method ClaimTask(state: Record) returns (claim: Claim, alive: bool)
      requires Valid() && world.saved == Some(state) && state.status == ReviewClaiming
      modifies `world, `budget
      ensures Valid() && world == old(world).(server := world.server)
      ensures world.server == old(world).server.(claims := world.server.claims)
      ensures old(world).server.claims != map[] ==> world == old(world)
      ensures alive ==> ReviewClaimIdempotency in state.hashes
                        && state.hashes[ReviewClaimIdempotency] in world.server.claims
                        && claim == world.server.claims[state.hashes[ReviewClaimIdempotency]]
      ensures alive <==> old(budget) != Some(0)
      ensures budget == Spent(old(budget), 1)
      ensures old(budget).None? && old(world).server.claims == map[] ==> claim.fits
    {
      hide Inv;
      SavedInv(world, state, keys, h);
      claim := Claim("", true);
      alive := Alive();
      if !alive {
        return;
      }
      var key := state.hashes[ReviewClaimIdempotency];
      if key in world.server.claims {
        claim := world.server.claims[key];
      } else {
        var token: string, fits: bool := *, *;
        claim := Claim(token, fits || budget.None?);
        ClaimKeepsInv(world, state, claim, keys, h);
        world := Claimed(world, key, claim);
      }
    }

    /** A handoff that an earlier command left behind, unless it is too large: then it is discarded. */
    method RecoverReview(state: Record) returns (found: bool, alive: bool)
      requires Valid() && world.saved == Some(state) && 2 <= Rank(state.status) <= 3
      modifies `world, `budget
      ensures Valid() && world == old(world).(review := world.review)
      ensures alive ==> world.review == if ReviewFits(old(world)) then old(world).review else None
      ensures found && alive <==> ReviewFits(old(world)) && old(world).review.Some?
      ensures !alive ==> world == old(world)
      ensures alive <==> ReviewFits(old(world)) || old(budget) != Some(0)
      ensures alive ==> budget == Spent(old(budget), if ReviewFits(old(world)) then 0 else 1)
    {
      hide Inv;
      found, alive := ReviewFits(world) && world.review.Some?, true;
      if !ReviewFits(world) {
        alive := Alive();
        if alive {
          DiscardKeepsInv(world, state, keys, h);
          world := world.(review := None);
        }
      }
    }

    /** The review handoff is there; its digest is saved. */
    method AcceptClaim(state: Record) returns (outcome: Outcome)
      requires Valid() && world.saved == Some(state) && state.status == ReviewClaiming && world.review.Some?
      modifies `world, `budget
      ensures Valid() && Forward(old(world).saved, world.saved) && OnlySaved(old(world), world)
      ensures outcome == Done ==> world.saved.value.status == ReviewClaimed
      ensures outcome != Done ==> world == old(world)
      ensures world.saved.Some? && outcome != Refused
      ensures outcome == Done <==> old(budget) != Some(0)
      ensures budget == Spent(old(budget), 1)
    {
      hide Inv;
      ClaimedKeepsInv(world, state, keys, h);
      var alive := Save(Recorded(state, ReviewClaimed, ReviewHandoff, h.handoff(world.review.value)));
      outcome := if alive then Done else Killed;
    }

    /** The claim is asked for and its handoff published. */
    method ClaimReview(state: Record) returns (outcome: Outcome)
      requires Valid() && world.saved == Some(state) && 2 <= Rank(state.status) <= 3 && world.review.None?
      modifies `world, `budget
      ensures Valid() && Forward(old(world).saved, world.saved) && ClaimOnly(old(world), world)
      ensures outcome == Done ==> world.saved.Some? && world.saved.value.status == ReviewClaimed
      ensures outcome != Refused
      ensures old(world).server.claims != map[] ==> world.server.claims == old(world).server.claims
      ensures world.saved.Some? && Rank(world.saved.value.status) <= 4
      ensures outcome == Done <==> Lasts(old(budget), IntentCost(state) + 3)
      ensures old(budget).None? ==> budget.None?
      ensures old(budget).None? && ClaimsFit(old(world)) ==> ReviewFits(world)
    {
      hide Inv;
      var r, alive := PrepareClaim(state);
      if !alive {
        return Killed;
      }
      var claim;
      claim, alive := ClaimTask(r);
      if alive {
        alive := Alive();
      }
      if !alive {
        return Killed;
      }
      HandoffKeepsInv(world, r, keys, h);
      world := world.(review := Some(HandoffFor(r, claim)));
      outcome := AcceptClaim(r);
    }

    /** `create_review_handoff`. */
    method RequestReview(inputs: Inputs) returns (outcome: Outcome)
      requires Valid()
      modifies `world, `budget
      ensures Valid() && Forward(old(world).saved, world.saved) && ClaimOnly(old(world), world)
      ensures outcome == Refused ==> world == old(world)
      ensures !CanRequest(old(world), inputs, h) ==> outcome == Refused
      ensures outcome == Done ==> AtStage(world, inputs, 4, 4, h)
      ensures outcome == Done <==> CanRequest(old(world), inputs, h) && Lasts(old(budget), RequestCost(old(world)))
      ensures old(budget).None? ==> budget.None?
      ensures old(budget).None? ==> outcome == if CanRequest(old(world), inputs, h) then Done else Refused
      ensures old(budget).None? && AtStage(old(world), inputs, 2, 3, h) && ClaimsFit(old(world)) ==> ReviewFits(world)
      ensures old(world).server.claims != map[] ==> world.server.claims == old(world).server.claims
      ensures AtStage(old(world), inputs, 4, 4, h) ==> world == old(world)
    {
      hide Inv, Origin, SealIdentity, Matches;
      if world.saved.None? || !Matches(world.saved.value, inputs, h) {
        return Refused;
      }
      var state := world.saved.value;
      if state.status == ReviewClaimed {
        ReviewKnown(world, state, keys, h);
        var handoff := world.review.value;
        var good := handoff.claim.fits && h.handoff(handoff) == state.hashes[ReviewHandoff] && ReviewFor(handoff, state);
        return if good then Done else Refused;
      }
      if state.status != AwaitingExternalReview && state.status != ReviewClaiming {
        return Refused;
      }
      if state.status == AwaitingExternalReview {
        NoEarlyReview(world, state, keys, h);
      }
      var found, alive := RecoverReview(state);
      if !alive {
        return Killed;
      }
      if found {
        outcome := AcceptClaim(state);
      } else {
        outcome := ClaimReview(state);
      }
      MatchesAfter(old(world).saved.value, world.saved.value, inputs, h);
    }

    // ---- review-submit -------------------------------------------------------------------------

    /** Whether the review inputs are those of the saved record: the handoff is whole and its digest is the saved
        one, and the result is acceptable for the exact run. */
    method ReviewInputsValid(state: Record, acceptable: bool) returns (good: bool)
      requires Valid() && world.saved == Some(state) && Rank(state.status) >= 4
      ensures good <==> acceptable && world.review.Some? && ReviewFits(world)
    {
      hide Inv;
      ReviewKnown(world, state, keys, h);
      good := world.review.Some? && world.review.value.claim.fits
              && h.handoff(world.review.value) == state.hashes[ReviewHandoff]
              && ReviewFor(world.review.value, state) && acceptable;
    }

    /** The server keeps the first submission under the claim, and answers the same again to the same one only. */
    method SendSubmission(state: Record, result: string) returns (outcome: Outcome)
      requires Valid() && world.saved == Some(state) && state.status == ReviewSubmitting && world.review.Some?
      modifies `world, `budget
      ensures Valid() && world == old(world).(server := world.server)
      ensures world.server == old(world).server.(submission := world.server.submission)
      ensures outcome == Done ==> world.server.submission.Some? && world.server.submission.value.result == result
      ensures outcome == Done ==> Submitted(world, result)
      ensures outcome != Done ==> world == old(world)
      ensures outcome == Done ==> SameResult(old(world), result)
      ensures outcome == Refused ==> !SameResult(old(world), result)
      ensures old(world).server.submission.Some? ==> world == old(world)
      ensures outcome == Killed <==> old(budget) == Some(0)
      ensures budget == Spent(old(budget), 1)
    {
      hide Inv;
      SavedInv(world, state, keys, h);
      var alive := Alive();
      if !alive {
        return Killed;
      }
      var sent := Submission(world.review.value.task, world.review.value.claim.token, result);
      if world.server.submission.Some? {
        return if world.server.submission.value == sent then Done else Refused;
      }
      SubmissionKeepsInv(world, state, result, keys, h);
      world := world.(server := world.server.(submission := Some(sent)));
      outcome := Done;
    }

    /** The review handoff is removed; being killed before that is no failure of the submission. */
    method DropReview(state: Record)
      requires Valid() && world.saved == Some(state) && Rank(state.status) >= 6
      modifies `world, `budget
      ensures Valid() && world == if old(budget) == Some(0) then old(world) else old(world).(review := None)
      ensures budget == Spent(old(budget), 1)
    {
      hide Inv;
      var alive := Alive();
      if alive {
        DiscardKeepsInv(world, state, keys, h);
        world := world.(review := None);
      }
    }

    /** From a claimed review to a submitted one. */
    method SubmitClaimed(state: Record, result: string) returns (outcome: Outcome)
      requires Valid() && world.saved == Some(state) && 4 <= Rank(state.status) <= 5 && world.review.Some?
      modifies `world, `budget
      ensures Valid() && Forward(old(world).saved, world.saved) && SubmissionOnly(old(world), world)
      ensures world.saved.Some? && Rank(world.saved.value.status) == if outcome == Done then 6 else Rank(world.saved.value.status)
      ensures outcome != Done ==> Rank(world.saved.value.status) <= 5
      ensures outcome == Refused ==> !SameResult(old(world), result)
      ensures outcome == Done ==> SameResult(old(world), result)
      ensures world.server == old(world).server || Submitted(world, result)
      ensures outcome == Done ==> Submitted(world, result)
      ensures outcome == Done ==> (world.review.None? <==> Lasts(old(budget), SubmitCost(old(world)) + 1))
      ensures old(world).server.submission.Some? ==> world.server == old(world).server
      ensures outcome == Done <==> SameResult(old(world), result) && Lasts(old(budget), SubmitCost(old(world)))
      ensures old(budget).None? ==> outcome != Killed && budget.None?
    {
      hide Inv;
      var r, alive := state, true;
      if state.status == ReviewClaimed {
        SubmittingKeepsInv(world, state, keys, h);
        r := state.(status := ReviewSubmitting);
        alive := Save(r);
        if !alive {
          return Killed;
        }
      }
      outcome := SendSubmission(r, result);
      if outcome != Done {
        return;
      }
      var report: string := *;
      ReviewedKeepsInv(world, r, report, result, keys, h);
      r := Reviewed(r, report, result);
      alive := Save(r);
      if !alive {
        return Killed;
      }
      DropReview(r);
    }

    /** `_submit_review_once`; `acceptable` says that the result satisfies its schema and names the request, the
        organisation and the head commit of the run.  A result that is not is refused before anything is saved or
        sent, except by a run that has submitted and removed its handoff, which looks at none. */
    method SubmitReview(inputs: Inputs, result: string, acceptable: bool) returns (outcome: Outcome)
      requires Valid()
      modifies `world, `budget
      ensures Valid() && Forward(old(world).saved, world.saved) && SubmissionOnly(old(world), world)
      ensures !AtStage(old(world), inputs, 4, 7, h) ==> outcome == Refused && world == old(world)
      ensures !acceptable && (AtStage(old(world), inputs, 4, 5, h) || old(world).review.Some?) ==>
        outcome == Refused && world == old(world)
      ensures world.server == old(world).server || (acceptable && Submitted(world, result))
      ensures outcome == Done && (AtStage(old(world), inputs, 4, 5, h) || old(world).review.Some?) ==>
        Submitted(world, result)
      ensures old(world).server.submission.Some? ==> world.server == old(world).server
      ensures outcome == Done ==> AtStage(world, inputs, 6, 7, h)
      ensures outcome != Done && AtStage(old(world), inputs, 4, 5, h) ==> AtStage(world, inputs, 4, 5, h)
      ensures AtStage(old(world), inputs, 6, 7, h) ==> world.saved == old(world).saved
      ensures outcome == Done && old(world).review.Some? ==>
        (world.review.None? <==> Lasts(old(budget), SubmitCost(old(world)) + 1))
      ensures outcome == Done <==>
        CanSubmit(old(world), inputs, result, acceptable, h) && Lasts(old(budget), SubmitCost(old(world)))
      ensures old(budget).None? ==> budget.None?
      ensures old(budget).None? ==>
        outcome == if CanSubmit(old(world), inputs, result, acceptable, h) then Done else Refused
    {
      hide Inv;
      if world.saved.None? || !Matches(world.saved.value, inputs, h) {
        return Refused;
      }
      var state := world.saved.value;
      if Rank(state.status) >= 4 {
        ReviewKnown(world, state, keys, h);
      }
      var good;
      if Rank(state.status) >= 6 {
        if world.review.None? {
          return Done;
        }
        good := ReviewInputsValid(state, acceptable);
        if !good || result != state.hashes[ReviewResult] {
          return Refused;
        }
        DropReview(state);
        return Done;
      }
      if state.status != ReviewClaimed && state.status != ReviewSubmitting {
        return Refused;
      }
      good := ReviewInputsValid(state, acceptable);
      if !good {
        return Refused;
      }
      outcome := SubmitClaimed(state, result);
      MatchesAfter(old(world).saved.value, world.saved.value, inputs, h);
    }

    // ---- finalize ------------------------------------------------------------------------------

    /** The results are sealed under the identity of the run: the output appears whole. */
    method Seal(state: Record) returns (alive: bool)
      requires Valid() && world.saved == Some(state) && state.status == ExternalReviewSubmitted && world.output.None?
      modifies `world, `budget
      ensures Valid() && world == old(world).(output := world.output)
      ensures if alive then world.output.Some? else world == old(world)
      ensures alive <==> old(budget) != Some(0)
      ensures budget == Spent(old(budget), 1)
      ensures old(budget).None? ==> OutputFits(world)
    {
      hide Inv;
      alive := Alive();
      if alive {
        var digest: string, fits: bool := *, *;
        SealKeepsInv(world, state, digest, fits || budget.None?, keys, h);
        world := world.(output := Some(Sealed(SealIdentity(state), digest, fits || budget.None?)));
      }
    }

    /** `finalize`. */
    method Finalize(inputs: Inputs) returns (outcome: Outcome)
      requires Valid()
      modifies `world, `budget
      ensures Valid() && Forward(old(world).saved, world.saved)
      ensures world.server == old(world).server && world.review == old(world).review && world.credential == old(world).credential
      ensures old(world).output.Some? ==> world.output == old(world).output
      ensures !CanFinalize(old(world), inputs, h) <==> outcome == Refused
      ensures outcome == Done ==> AtStage(world, inputs, 7, 7, h)
      ensures outcome == Refused ==> world == old(world)
      ensures outcome == Done <==> CanFinalize(old(world), inputs, h) && Lasts(old(budget), FinalizeCost(old(world)))
      ensures old(budget).None? ==> outcome == if CanFinalize(old(world), inputs, h) then Done else Refused
    {
      hide Inv, Origin, SealIdentity, Matches;
      if world.saved.None? || !Matches(world.saved.value, inputs, h) {
        return Refused;
      }
      var state := world.saved.value;
      OutputKnown(world, state, keys, h);
      if state.status == Complete {
        var good := SealVerifies(state) && world.output.value.digest == state.hashes[SealedManifest];
        return if good then Done else Refused;
      }
      if state.status != ExternalReviewSubmitted {
        return Refused;
      }
      var alive := true;
      if world.output.Some? {
        if !SealVerifies(state) {
          return Refused;
        }
      } else {
        alive := Seal(state);
        if !alive {
          return Killed;
        }
      }
      CompleteKeepsInv(world, state, keys, h);
      alive := Save(Recorded(state, Complete, SealedManifest, world.output.value.digest));
      MatchesAfter(old(world).saved.value, world.saved.value, inputs, h);
      outcome := if alive then Done else Killed;
    }

    /** `_verify_existing_seal` accepts the output. */
    predicate SealVerifies(state: Record)
      reads `world
    {
      world.output.Some? && world.output.value.fits && world.output.value.identity == SealIdentity(state)
    }
  }

  // ---- Whole runs ------------------------------------------------------------------------------

  datatype Command =
    | StartWith(inputs: Inputs, now: string)
    | RequestWith(inputs: Inputs)
    | SubmitWith(inputs: Inputs, result: string, acceptable: bool)
    | FinalizeWith(inputs: Inputs)

  /** What every history of commands keeps: the record only moves forward under the same pinned inputs, and once
      there is a complete credential handoff it stays and no bootstrap is requested again. */
  ghost predicate Kept(before: World, after: World) {
    && Forward(before.saved, after.saved)
    && (HasCredential(before) ==> after.credential == before.credential
                                  && after.server.bootstrapRequests == before.server.bootstrapRequests)
    && (before.server.claims != map[] ==> after.server.claims == before.server.claims)
    && (before.server.submission.Some? ==> after.server.submission == before.server.submission)
    && (before.output.Some? ==> after.output == before.output)
  }

  /** The command can be completed, and the budget lasts for what is left of it. */
  ghost predicate Completes(command: Command, w: World, keys: seq<string>, budget: Option<nat>, h: Hashing) {
    match command
    case StartWith(inputs, _) => CanStart(w, keys, inputs, h) && Lasts(budget, StartCost(w, |keys|, inputs, h))
    case RequestWith(inputs) => CanRequest(w, inputs, h) && Lasts(budget, RequestCost(w))
    case SubmitWith(inputs, result, acceptable) =>
      CanSubmit(w, inputs, result, acceptable, h) && Lasts(budget, SubmitCost(w))
    case FinalizeWith(inputs) => CanFinalize(w, inputs, h) && Lasts(budget, FinalizeCost(w))
  }

  /** The record stands where the command leaves it. */
  ghost predicate Reached(command: Command, w: World, h: Hashing) {
    match command
    case StartWith(inputs, _) => AtStage(w, inputs, 2, 7, h)
    case RequestWith(inputs) => AtStage(w, inputs, 4, 4, h)
    case SubmitWith(inputs, _, _) => AtStage(w, inputs, 6, 7, h)
    case FinalizeWith(inputs) => AtStage(w, inputs, 7, 7, h)
  }

  /** One command, in a process of its own that lasts for the budget. */
  method Perform(runner: Runner, command: Command, budget: Option<nat>) returns (outcome: Outcome)
    requires runner.Valid()
    modifies runner
    ensures outcome == Done ==> Reached(command, runner.world, runner.h)
    ensures outcome == Done <==> Completes(command, old(runner.world), old(runner.keys), budget, runner.h)
    ensures runner.Valid() && Kept(old(runner.world), runner.world)
    ensures Blocked(old(runner.world), old(runner.keys), runner.h) ==> Blocked(runner.world, runner.keys, runner.h)
    ensures !Resumable(old(runner.world), command.inputs, runner.h) ==>
      outcome == Refused && runner.world == old(runner.world)
    ensures runner.world.server.submission == old(runner.world).server.submission || Submits(command, runner.world)
  {
    hide Inv, Origin, Matches;
    runner.budget := budget;
    match command {
      case StartWith(inputs, now) => outcome := runner.Start(inputs, now);
      case RequestWith(inputs) => outcome := runner.RequestReview(inputs);
      case SubmitWith(inputs, result, acceptable) => outcome := runner.SubmitReview(inputs, result, acceptable);
      case FinalizeWith(inputs) => outcome := runner.Finalize(inputs);
    }
  }

  lemma KeptOverall(first: World, middle: World, last: World)
    requires Kept(first, middle) && Kept(middle, last)
    ensures Kept(first, last)
  {
  }

  /** The command submits an acceptable result, and the server holds it. */
  predicate Submits(command: Command, w: World) {
    command.SubmitWith? && command.acceptable && Submitted(w, command.result)
  }

  /** What lasts between two commands of a history, and the upload keys used by then. */
  datatype Moment = Moment(world: World, keys: seq<string>)

  /** The command, in a process that lasts for the budget, leads from one moment to the other: where it can succeed it
      does, and for foreign inputs nothing changes. */
  ghost predicate Leads(before: Moment, command: Command, budget: Option<nat>, after: Moment, h: Hashing) {
    && Kept(before.world, after.world)
    && (Completes(command, before.world, before.keys, budget, h) ==> Reached(command, after.world, h))
    && (!Resumable(before.world, command.inputs, h) ==> after.world == before.world)
    && (after.world.server.submission == before.world.server.submission || Submits(command, after.world))
  }

  /** The moments between the commands of a history. */
  ghost predicate Ran(trace: seq<Moment>, history: seq<(Command, Option<nat>)>, h: Hashing) {
    && |trace| == |history| + 1
    && forall i | 0 <= i < |history| :: Leads(trace[i], history[i].0, history[i].1, trace[i + 1], h)
  }

  /** Any number of commands in any order, with any inputs, each killed anywhere or nowhere.  A blocked run stays
      blocked.  What the server comes to hold as the submission is an acceptable result that one of the commands was
      given. */
  method RunHistory(runner: Runner, history: seq<(Command, Option<nat>)>) returns (ghost trace: seq<Moment>)
    requires runner.Valid()
    modifies runner
    ensures runner.Valid() && Kept(old(runner.world), runner.world)
    ensures Blocked(old(runner.world), old(runner.keys), runner.h) ==> Blocked(runner.world, runner.keys, runner.h)
    ensures runner.world.server.submission == old(runner.world).server.submission
            || exists i :: 0 <= i < |history| && Submits(history[i].0, runner.world)
    ensures Ran(trace, history, runner.h)
    ensures trace[0] == Moment(old(runner.world), old(runner.keys))
    ensures trace[|history|] == Moment(runner.world, runner.keys)
  {
    hide Inv, Forward, Completes, Reached, Resumable;
    trace := [Moment(runner.world, runner.keys)];
    KeptAtFirst(runner.world);
    for i := 0 to |history|
      invariant runner.Valid() && Kept(old(runner.world), runner.world)
      invariant Blocked(old(runner.world), old(runner.keys), runner.h) ==> Blocked(runner.world, runner.keys, runner.h)
      invariant runner.world.server.submission == old(runner.world).server.submission
                || exists j :: 0 <= j < i && Submits(history[j].0, runner.world)
      invariant |trace| == i + 1 && trace[0] == Moment(old(runner.world), old(runner.keys))
      invariant trace[i] == Moment(runner.world, runner.keys)
      invariant forall j | 0 <= j < i :: Leads(trace[j], history[j].0, history[j].1, trace[j + 1], runner.h)
    {
      ghost var middle := runner.world;
      assert history[i] in history;
      var outcome := Perform(runner, history[i].0, history[i].1);
      KeptOverall(old(runner.world), middle, runner.world);
      assert forall command | Submits(command, middle) :: Submits(command, runner.world);
      trace := trace + [Moment(runner.world, runner.keys)];
    }
  }

  lemma KeptAtFirst(w: World)
    ensures Kept(w, w)
  {
  }

  // ---- Kills that block a run ------------------------------------------------------------------

  /** One start with a stale probe, killed after twenty-four effects, blocks the run for good: no later command with
      whatever inputs completes it. */
  method BlockedByProbe(inputs: Inputs, now: string, h: Hashing) returns (runner: Runner)
    requires NewHead(inputs, h).Some?
    ensures runner.h == h && runner.Valid() && Blocked(runner.world, runner.keys, h)
    ensures forall i, result, acceptable :: !Completable(runner.world, runner.keys, i, result, acceptable, h)
  {
    hide Inv, Blocked;
    runner := new Runner(h);
    StartsValid(h);
    runner.budget := Some(24);
    var outcome := runner.Start(inputs, now);
    BlockedIsNotCompletable(runner.world, runner.keys, h);
  }

  /** Sixteen starts, each killed just after its upload was authorised, block the run for good. */
  method BlockedByUploads(inputs: Inputs, now: string, h: Hashing) returns (runner: Runner)
    ensures runner.h == h && runner.Valid() && Blocked(runner.world, runner.keys, h)
    ensures forall i, result, acceptable :: !Completable(runner.world, runner.keys, i, result, acceptable, h)
  {
    hide Inv, Blocked, UploadInterrupted, UploadsLeft;
    runner := new Runner(h);
    StartsValid(h);
    runner.budget := Some(15);
    var outcome := runner.Start(inputs, now);
    InterruptedTimes(runner.world, runner.keys, 1, inputs, h);
    for n := 1 to 16
      invariant runner.Valid()
      invariant Blocked(runner.world, runner.keys, h)
                || (|runner.keys| == n && UploadInterrupted(runner.world, runner.keys, |runner.keys|, inputs, h))
    {
      InterruptedOrBlocked(runner.world, runner.keys, inputs, h);
      runner.budget := Some(n + 7);
      outcome := runner.Start(inputs, now);
      InterruptedTimes(runner.world, runner.keys, n + 1, inputs, h);
    }
    InterruptedOrBlocked(runner.world, runner.keys, inputs, h);
    BlockedIsNotCompletable(runner.world, runner.keys, h);
  }

  lemma StartsValid(h: Hashing)
    ensures Inv(FRESH, [], h)
  {
  }

  lemma InterruptedTimes(w: World, keys: seq<string>, n: nat, i: Inputs, h: Hashing)
    ensures UploadInterrupted(w, keys, n, i, h) ==> |keys| == n
  {
  }

  /** An interrupted run can be interrupted again, unless it is blocked already. */
  lemma InterruptedOrBlocked(w: World, keys: seq<string>, i: Inputs, h: Hashing)
    ensures UploadInterrupted(w, keys, |keys|, i, h) ==> UploadsLeft(w, keys, h) || Blocked(w, keys, h)
    ensures UploadsLeft(w, keys, h) ==> |keys| < 16
  {
  }

  /** The four commands left alone, one after the other, whatever each answers: they complete the run exactly when
      it is completable, and then the sealed output is the recorded one. */
  method CompleteRun(runner: Runner, inputs: Inputs, now: string, result: string, acceptable: bool) returns (outcome: Outcome)
    requires runner.Valid()
    modifies runner
    ensures runner.Valid() && Forward(old(runner.world).saved, runner.world.saved)
    ensures outcome == Done <==> Completable(old(runner.world), old(runner.keys), inputs, result, acceptable, runner.h)
    ensures outcome == Done ==> runner.world.saved.Some? && runner.world.saved.value.status == Complete
  {
    hide Inv, Origin, Matches;
    runner.budget := None;
    outcome := runner.Start(inputs, now);
    if old(runner.world).saved.None? || Rank(old(runner.world).saved.value.status) < 3 {
      NothingEarly(old(runner.world), old(runner.keys), runner.h);
    }
    outcome := CompleteStarted(runner, inputs, result, acceptable);
  }

  /** The last three commands left alone. */
  method CompleteStarted(runner: Runner, inputs: Inputs, result: string, acceptable: bool) returns (outcome: Outcome)
    requires runner.Valid() && runner.budget.None?
    modifies runner
    ensures runner.Valid() && Forward(old(runner.world).saved, runner.world.saved)
    ensures outcome == Done <==> ReviewCompletable(old(runner.world), inputs, result, acceptable, runner.h)
    ensures outcome == Done ==> runner.world.saved.Some? && runner.world.saved.value.status == Complete
  {
    hide Inv, Origin, Matches;
    outcome := runner.RequestReview(inputs);
    if AtStage(runner.world, inputs, 4, 5, runner.h) {
      ReviewIsTheClaim(runner.world, runner.world.saved.value, runner.keys, runner.h);
    }
    outcome := runner.SubmitReview(inputs, result, acceptable);
    outcome := runner.Finalize(inputs);
  }
}
