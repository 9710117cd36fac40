/** The registry of pending approval requests and the notifier that waits on it. */
module Registries {
  import opened Contracts
  import opened Stores
  import opened Text

  datatype ApprovalResult = ApprovalResult(requestId: string, decision: ApprovalDecision, approver: string)

  const APPROVAL_BLOCK_PREFIX := "approval_"

  function DeniedFor(requestId: string): ApprovalResult { ApprovalResult(requestId, Denied, "system") }

  function TimedOut(requestId: string): ApprovalResult { ApprovalResult(requestId, Timeout, "system") }

  /** A Go channel with one buffer place. */
  class Channel {
    var buffer: seq<ApprovalResult>

    constructor ()
      ensures buffer == []
    {
      buffer := [];
    }

    /** `select { case ch <- r: default: }` */
    method TrySend(r: ApprovalResult)
      modifies this
      ensures buffer == if old(buffer) == [] then [r] else old(buffer)
    {
      if |buffer| < 1 {
        buffer := buffer + [r];
      }
    }
  }

  datatype PendingEntry = PendingEntry(ch: Channel, deadline: int, requestedAt: int, proposal: Proposal)

  datatype PendingApproval = PendingApproval(requestId: string, proposal: Proposal, requestedAt: int, deadline: int)

  function Summary(id: string, e: PendingEntry): PendingApproval {
    PendingApproval(id, e.proposal, e.requestedAt, e.deadline)
  }

  class Registry {
    var entries: map<string, PendingEntry>
    const store: Store?

    constructor (store: Store?)
      ensures entries == map[] && this.store == store
    {
      entries := map[];
      this.store := store;
    }

    method Register(incidentId: string, id: string, proposal: Proposal, timeout: int, now: int) returns (ch: Channel)
      modifies this, store
      ensures fresh(ch) && ch.buffer == []
      ensures entries == old(entries)[id := PendingEntry(ch, now + timeout, now, proposal)]
      ensures store != null ==>
                store.approvals
                == UpsertedApproval(old(store.approvals), ApprovalRecord(id, incidentId, proposal, now, now + timeout))
      ensures store != null ==> unchanged(store`incidents) && unchanged(store`breakerEvents)
    {
      ch := new Channel();
      entries := entries[id := PendingEntry(ch, now + timeout, now, proposal)];
      if store != null {
        store.UpsertApproval(ApprovalRecord(id, incidentId, proposal, now, now + timeout));
      }
    }

    method Resolve(id: string, result: ApprovalResult) returns (ok: bool)
      modifies this, store, if id in entries then {entries[id].ch} else {}
      ensures ok <==> id in old(entries)
      ensures entries == old(entries) - {id}
      ensures ok ==>
                var ch := old(entries[id].ch);
                ch.buffer == if old(ch.buffer) == [] then [result] else old(ch.buffer)
      ensures store != null ==> store.approvals == if ok then old(store.approvals) - {id} else old(store.approvals)
      ensures store != null ==> unchanged(store`incidents) && unchanged(store`breakerEvents)
    {
      if id !in entries {
        assert entries == entries - {id};
        return false;
      }
      var e := entries[id];
      entries := entries - {id};
      if store != null {
        store.DeleteApproval(id);
      }
      e.ch.TrySend(result);
      return true;
    }

    method Remove(id: string)
      modifies this, store
      ensures entries == old(entries) - {id}
      ensures store != null ==> store.approvals == old(store.approvals) - {id}
      ensures store != null ==> unchanged(store`incidents) && unchanged(store`breakerEvents)
    {
      entries := entries - {id};
      if store != null {
        store.DeleteApproval(id);
      }
    }

    method IsExpired(id: string, now: int) returns (expired: bool)
      ensures expired <==> id in entries ==> now > entries[id].deadline
    {
      if id !in entries {
        return true;
      }
      return now > entries[id].deadline;
    }

    /** Exactly the requests that have not expired, each once, in the order of the map walk. */
    method List(now: int) returns (out: seq<PendingApproval>)
      ensures forall p :: p in out <==>
                p.requestId in entries && now <= p.deadline && p == Summary(p.requestId, entries[p.requestId])
      ensures forall p <- out ::
                var e := entries[p.requestId];
                p.proposal == e.proposal && p.requestedAt == e.requestedAt && p.deadline == e.deadline
      ensures forall i, j :: 0 <= i < j < |out| ==> out[i].requestId != out[j].requestId
    {
      out := [];
      var ids := entries.Keys;
      while ids != {}
        invariant ids <= entries.Keys
        invariant forall p :: p in out <==>
          p.requestId in entries.Keys - ids && now <= p.deadline && p == Summary(p.requestId, entries[p.requestId])
        invariant forall i, j :: 0 <= i < j < |out| ==> out[i].requestId != out[j].requestId
        decreases ids
      {
        var id :| id in ids;
        if !(now > entries[id].deadline) {
          assert forall p <- out :: p.requestId != id;
          out := out + [Summary(id, entries[id])];
        }
        ids := ids - {id};
      }
    }
  }

  /** What ends the wait of RequestApproval: a resolution (by whoever), the timer or the context. */
  datatype Wake = Resolved(result: ApprovalResult) | Elapsed | Cancelled

  class SlackNotifier {
    var botToken: string
    var channelId: string
    const approvalTimeout: int
    const reg: Registry

    constructor (botToken: string, channelId: string, approvalTimeout: int, reg: Registry)
      ensures this.botToken == botToken && this.channelId == channelId && this.reg == reg
      ensures this.approvalTimeout == if approvalTimeout <= 0 then 1_800_000 else approvalTimeout
    {
      this.botToken, this.channelId, this.reg := botToken, channelId, reg;
      this.approvalTimeout := if approvalTimeout <= 0 then 1_800_000 else approvalTimeout;
    }

    /** One request with nothing else going on: `id` is the fresh request ID, `posted` the outcome of the
        message to Slack, `wake` what happens first during the wait. Whatever happens, the registry and
        the table end as they began. */
    method RequestApproval(proposal: Proposal, id: string, now: int, posted: bool, wake: Wake)
        returns (answer: ApprovalResult)
      requires id !in reg.entries && (reg.store != null ==> id !in reg.store.approvals)
      modifies reg, reg.store
      ensures reg.entries == old(reg.entries)
      ensures reg.store != null ==> reg.store.approvals == old(reg.store.approvals)
      ensures botToken == "" || channelId == "" ==> answer == ApprovalResult("", Denied, "system")
      ensures botToken != "" && channelId != "" ==>
                answer == if !posted || wake == Cancelled then ApprovalResult(id, Denied, "system")
                          else if wake == Elapsed then ApprovalResult(id, Timeout, "system") else wake.result
    {
      if botToken == "" || channelId == "" {
        return DeniedFor("");
      }
      var ch := reg.Register(proposal.incidentId, id, proposal, approvalTimeout, now);
      if !posted {
        answer := DeniedFor(id);
      } else {
        match wake
        case Resolved(result) =>
          var ok := reg.Resolve(id, result);
          answer := ch.buffer[0];
        case Elapsed => answer := TimedOut(id);
        case Cancelled => answer := DeniedFor(id);
      }
      reg.Remove(id);
    }

    /** A foreign button, or one that was pressed too late. */
    predicate Ignored(blockId: string, now: int)
      reads this, reg
    {
      var id := TrimPrefix(blockId, APPROVAL_BLOCK_PREFIX);
      id == blockId || id == "" || id !in reg.entries || now > reg.entries[id].deadline
    }

    /** The resolve part of the interactions handler: the block ID and the value of the pressed button.
        An ignored button changes nothing; only "approve", in any case, approves. */
    method HandleInteraction(blockId: string, value: string, user: string, now: int)
      modifies reg, reg.store, set id <- reg.entries :: reg.entries[id].ch
      ensures old(Ignored(blockId, now)) ==> reg.entries == old(reg.entries)
      ensures old(Ignored(blockId, now)) ==> reg.store != null ==> reg.store.approvals == old(reg.store.approvals)
      ensures old(Ignored(blockId, now)) ==> forall ch: Channel :: old(allocated(ch)) ==> ch.buffer == old(ch.buffer)
      ensures !old(Ignored(blockId, now)) ==>
                var id := TrimPrefix(blockId, APPROVAL_BLOCK_PREFIX);
                var decision := if Lower(value) == "approve" then Approved else Denied;
                && reg.entries == old(reg.entries) - {id}
                && (reg.store != null ==> reg.store.approvals == old(reg.store.approvals) - {id})
                && (old(reg.entries[id].ch.buffer) == [] ==>
                      old(reg.entries[id].ch).buffer == [ApprovalResult(id, decision, user)])
    {
      var id := TrimPrefix(blockId, APPROVAL_BLOCK_PREFIX);
      if id == blockId || id == "" {
        return;
      }
      var expired := reg.IsExpired(id, now);
      if expired {
        return;
      }
      var decision := if Lower(value) == "approve" then Approved else Denied;
      var ok := reg.Resolve(id, ApprovalResult(id, decision, user));
    }
  }

  /** The button "approval_" + id is about the request `id`, and no other button is. */
  lemma BlockNamesRequest(blockId: string, id: string)
    ensures var named := TrimPrefix(blockId, APPROVAL_BLOCK_PREFIX);
            blockId == "approval_" + id <==> named == id && named != blockId
  {
    TrimPrefixRemoves(APPROVAL_BLOCK_PREFIX, id);
  }

  /** A pending request that is still in time. */
  ghost predicate Pending(reg: Registry, id: string, now: int)
    reads reg
  {
    id in reg.entries && now <= reg.entries[id].deadline
  }

  /** A button is ignored unless it names a pending request in time. */
  lemma IgnoredIff(n: SlackNotifier, blockId: string, now: int)
    ensures !n.Ignored(blockId, now) <==>
              exists id :: blockId == "approval_" + id && id != "" && Pending(n.reg, id, now)
  {
    if !n.Ignored(blockId, now) {
      BlockNamesRequest(blockId, TrimPrefix(blockId, APPROVAL_BLOCK_PREFIX));
    } else if id :| blockId == "approval_" + id && id != "" && Pending(n.reg, id, now) {
      BlockNamesRequest(blockId, id);
      assert false;
    }
  }

  /** Only "approve" approves, in upper, lower or mixed case. */
  lemma ApprovesIff(value: string)
    ensures Lower(value) == "approve" <==> SameUpToCase(value, "approve")
  {
    assert Lower("approve") == "approve";
    LowerEqualIff(value, "approve");
  }
}
