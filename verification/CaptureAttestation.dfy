/** The capture protocol over real object identities (src/core/computer-use-live-evidence.ts 116-156, 206-321, 351-426):
    which adapters the factory made, and which result objects its wrappers attested. */
module CaptureAttestation {

  import opened Common
  import opened CaptureEvidence

  /** A frozen object: its identity is what counts. */
  class Attestation {
    const id: Uuid
    const issuedAt: nat
    const binding: Request

    constructor (id: Uuid, issuedAt: nat, binding: Request)
      ensures this.id == id && this.issuedAt == issuedAt && this.binding == binding
    {
      this.id, this.issuedAt, this.binding := id, issuedAt, binding;
    }
  }

  /** How a result's `ok` reads: the wrapper asks for `true`, the builder for anything truthy. */
  datatype Truth = Yes | Truthy | Falsy

  datatype Fields = Fields(ok: Truth, blocker: string, redacted: bool, localOnly: bool)

  /** A result object; whoever holds it may assign its fields. */
  class Result {
    var fields: Fields
    var attestation: Attestation?

    constructor (fields: Fields, attestation: Attestation?)
      ensures this.fields == fields && this.attestation == attestation
    {
      this.fields, this.attestation := fields, attestation;
    }
  }

  /** An adapter object. Its capture method may be replaced, so what a call returns is not up to the adapter. */
  class Adapter {
    var mock: bool

    constructor (mock: bool)
      ensures this.mock == mock
    {
      this.mock := mock;
    }
  }

  /** What awaiting a capture method gives. */
  datatype Reply = Returned(result: Result) | Primitive | Nullish | Rejected

  function Objects(reply: Reply): set<object> { if reply.Returned? then {reply.result} else {} }

  /** One attested capture. */
  datatype Mint = Mint(adapter: Adapter, request: Request, result: Result, attestation: Attestation)

  /** The map holds what the log says, nothing else, and no attestation twice. */
  ghost predicate Consistent(adapters: set<Adapter>, attestations: map<Result, Attestation>, minted: seq<Mint>) {
    (forall m | m in minted :: m.adapter in adapters && m.result in attestations &&
      attestations[m.result] == m.attestation && m.attestation.binding == m.request) &&
    (forall r | r in attestations :: exists m :: m in minted && m.result == r) &&
    (forall r, s | r in attestations && s in attestations :: attestations[r] == attestations[s] ==> r == s)
  }

  /** Attesting a new result with a new attestation keeps the registry consistent. */
  lemma MintKeepsConsistent(adapters: set<Adapter>, attestations: map<Result, Attestation>, minted: seq<Mint>, m: Mint)
    requires Consistent(adapters, attestations, minted)
    requires m.adapter in adapters && m.attestation.binding == m.request
    requires m.result !in attestations && m.attestation !in attestations.Values
    ensures Consistent(adapters, attestations[m.result := m.attestation], minted + [m])
  {
    var table, log := attestations[m.result := m.attestation], minted + [m];
    assert log[|minted|] == m;
    forall r | r in table ensures exists x :: x in log && x.result == r {
      if r == m.result {
        assert m in log;
      } else {
        var x :| x in minted && x.result == r;
        assert x in log;
      }
    }
  }

  /** The evidence object, filled step by step. */
  class Evidence {
    var mode: Mode
    const status: Status
    var shot: Shot
    var actionBlocked: bool
    var screenContent: bool
    var redactionRequired: bool
    var blockers: seq<Blocker>

    function Value(): Record
      reads this
    {
      Record(mode, status, shot, actionBlocked, screenContent, redactionRequired, blockers)
    }

    constructor (o: Options, status: Status)
      ensures Value() == Initial(o, status)
    {
      var r := Initial(o, status);
      this.mode, this.status, shot, actionBlocked, screenContent, redactionRequired, blockers :=
        r.mode, status, r.shot, r.actionBlocked, r.screenContent, r.redactionRequired, r.blockers;
    }

    /** End the attempt with a status and a blocker. */
    method Stop(status: CaptureStatus, blocker: Blocker)
      modifies this
      ensures Value() == Stopped(old(Value()), status, blocker)
    {
      shot := shot.(status := status);
      blockers := blockers + [blocker];
    }

    method Attribute(provenance: Provenance)
      modifies this
      ensures Value() == Attributed(old(Value()), provenance)
    {
      shot := shot.(provenance := provenance);
    }

    /** Record the refused action and settle the mode. */
    method Conclude(action: bool)
      modifies this
      ensures Value() == Concluded(WithAction(old(Value()), action))
    {
      if action {
        actionBlocked := true;
        blockers := blockers + [ActionAdapterMissing];
      }
      if shot.status == Captured && shot.provenance.verified {
        mode := LiveCaptureSuccess;
        screenContent := true;
      } else if blockers != [] {
        mode := LiveCaptureBlocked;
      }
    }

    method Capture(saved: Saved, redacted: bool, localOnly: bool)
      requires saved.File?
      modifies this
      ensures Value() == Kept(old(Value()), saved, redacted, localOnly)
    {
      shot := shot.(status := Captured, path := Some(saved.path), digest := Some(saved.digest), redacted := redacted,
                    localOnly := localOnly);
      redactionRequired := redacted;
    }
  }

  class Registry {
    /** The weak set of adapters and the weak map from results to attestations. */
    var adapters: set<Adapter>
    var attestations: map<Result, Attestation>
    /** Every attested capture so far. */
    ghost var minted: seq<Mint>

    ghost predicate Valid()
      reads this
    {
      Consistent(adapters, attestations, minted)
    }

    /** Nothing is ever taken back. */
    twostate predicate Grows()
      reads this
    {
      old(adapters) <= adapters && old(minted) <= minted &&
      forall r | r in old(attestations) :: r in attestations && attestations[r] == old(attestations[r])
    }

    constructor ()
      ensures Valid() && adapters == {} && attestations == map[] && minted == []
    {
      adapters, attestations, minted := {}, map[], [];
    }

    method CreateOfficialAdapter() returns (a: Adapter)
      requires Valid()
      modifies this
      ensures Valid() && Grows() && fresh(a)
      ensures adapters == old(adapters) + {a} && attestations == old(attestations) && minted == old(minted)
    {
      a := new Adapter(false);
      adapters := adapters + {a};
    }

    /** What the wrapper makes of its own capture function's reply: an object with `ok` true is copied into a new
        result that carries a new attestation of the request; anything else passes through. */
    method WrapperCapture(a: Adapter, request: Request, raw: Reply, id: Uuid, now: nat) returns (reply: Reply)
      requires Valid() && a in adapters
      modifies this
      ensures Valid() && Grows() && adapters == old(adapters)
      ensures raw.Returned? && raw.result.fields.ok == Yes ==>
        reply.Returned? && fresh(reply.result) && reply.result.fields == raw.result.fields &&
        reply.result.attestation != null && fresh(reply.result.attestation) &&
        reply.result.attestation.binding == request &&
        attestations == old(attestations)[reply.result := reply.result.attestation] &&
        minted == old(minted) + [Mint(a, request, reply.result, reply.result.attestation)]
      ensures !(raw.Returned? && raw.result.fields.ok == Yes) ==>
        reply == raw && attestations == old(attestations) && minted == old(minted)
    {
      hide Consistent;
      if !raw.Returned? || raw.result.fields.ok != Yes {
        return raw;
      }
      var attestation := new Attestation(id, now, request);
      var result := new Result(raw.result.fields, attestation);
      MintKeepsConsistent(adapters, attestations, minted, Mint(a, request, result, attestation));
      attestations := attestations[result := attestation];
      minted := minted + [Mint(a, request, result, attestation)];
      reply := Returned(result);
    }

    // ---- what the builder finds out ----

    function KindOf(a: Adapter?): Kind
      reads this, a
    {
      if a == null then NoAdapter else if a in adapters then Official else if a.mock then Mock else Literal
    }

    /** The result's registered attestation, if the result still carries it and it is for this request. */
    function Certified(r: Result, request: Request): Option<Stamp>
      reads this, r
    {
      if r in attestations && r.attestation == attestations[r] && attestations[r].binding == request then
        Some(Stamp(attestations[r].id, attestations[r].issuedAt, attestations[r].binding))
      else None
    }

    function AnswerOf(reply: Reply, request: Request): Answer
      reads this, Objects(reply)
    {
      match reply
      case Rejected => Threw
      case Nullish => Threw
      case Primitive => Refused(None)
      case Returned(r) =>
        if r.fields.ok == Falsy then Refused(OrNull(r.fields.blocker))
        else Accepted(Certified(r, request), r.fields.redacted, r.fields.localOnly)
    }

    method AttemptScreenshotCapture(e: Evidence, o: Options, a: Adapter?, reply: Reply, saved: Saved)
      requires e.shot.status == NotAttempted
      modifies e
      ensures e.Value() == Attempted(old(e.Value()), KindOf(a), AnswerOf(reply, RequestOf(o)), saved)
    {
      hide RequestOf, MintedFor, Valid, Stopped, Attributed, Kept;
      e.shot := e.shot.(attempted := true);
      if a == null {
        e.Stop(Blocked, AdapterMissing);
        return;
      }
      e.Attribute(Provenance(SourceOf(KindOf(a)), false, None));
      if a !in adapters {
        e.Stop(Blocked, AdapterUntrusted);
        return;
      }
      if reply.Rejected? || reply.Nullish? {
        e.Stop(Failed, CaptureFailed);
        return;
      }
      if reply.Primitive? || reply.result.fields.ok == Falsy {
        var code := if reply.Primitive? then None else OrNull(reply.result.fields.blocker);
        e.Stop(Blocked, HostRefused(code));
        return;
      }
      var r := reply.result;
      if r !in attestations || r.attestation != attestations[r] || attestations[r].binding != RequestOf(o) {
        e.Stop(Blocked, AttestationInvalid);
        return;
      }
      var t := attestations[r];
      e.Attribute(Provenance(Host, true, Some(Stamp(t.id, t.issuedAt, t.binding))));
      if saved.NotSaved? {
        e.Stop(Failed, CaptureFailed);
        return;
      }
      e.Capture(saved, r.fields.redacted, r.fields.localOnly);
    }

    /** A capture of the request by some wrapper, whose result object this is. */
    ghost predicate MintedFor(r: Result, request: Request)
      reads this
    {
      exists m :: m in minted && m.result == r && m.request == request && m.adapter in adapters
    }

    /** The evidence for a reply. Whatever came before, success is claimed only for a factory-made adapter and a result
        object that some factory wrapper minted for the same root, route, mission and output path. */
    method BuildLiveEvidence(o: Options, status: Status, a: Adapter?, reply: Reply, saved: Saved) returns (e: Evidence)
      requires Valid()
      ensures Valid() && fresh(e)
      ensures e.Value() == Built(o, status, KindOf(a), AnswerOf(reply, RequestOf(o)), saved)
      ensures e.mode == LiveCaptureSuccess ==>
        a != null && a in adapters && reply.Returned? && MintedFor(reply.result, RequestOf(o))
      ensures IsEvidence(e.Value()) <==> !(e.mode == LiveCaptureSuccess && NoPath(saved))
    {
      hide RequestOf, MintedFor, Valid, Attempted, Attests, IsEvidence, Certified, Concluded, WithAction;
      SuccessIsMinted(o, status, a, reply, saved);
      ghost var k, answer := KindOf(a), AnswerOf(reply, RequestOf(o));
      e := new Evidence(o, status);
      if !o.optIn {
        return;
      }
      if status == NotMacos {
        e.blockers := e.blockers + [BadStatus(NotMacos)];
        e.mode := ProbeOnly;
        return;
      }
      if status != Available {
        e.blockers := e.blockers + [BadStatus(status)];
        e.mode := LiveCaptureBlocked;
        e.shot := e.shot.(status := if o.capture then Blocked else NotAttempted, attempted := o.capture);
        return;
      }
      if o.capture {
        AttemptScreenshotCapture(e, o, a, reply, saved);
        assert e.Value() == Attempted(Initial(o, status), k, answer, saved);
      }
      e.Conclude(o.action);
    }

    /** A result is certified for a request exactly when a wrapper minted it for that request and it still carries the
        very attestation it was given. */
    lemma CertifiedIsMinted(r: Result, request: Request)
      requires Valid()
      ensures Certified(r, request).Some? <==>
        exists m :: m in minted && m.result == r && m.request == request && m.attestation == r.attestation
      ensures Certified(r, request).Some? ==> MintedFor(r, request)
    {
      if Certified(r, request).Some? {
        var m :| m in minted && m.result == r;
        assert m.attestation == attestations[r];
      }
    }

    lemma SuccessIsMinted(o: Options, status: Status, a: Adapter?, reply: Reply, saved: Saved)
      requires Valid()
      ensures var r := Built(o, status, KindOf(a), AnswerOf(reply, RequestOf(o)), saved);
        (r.mode == LiveCaptureSuccess ==> a != null && a in adapters && reply.Returned? && MintedFor(reply.result, RequestOf(o))) &&
        (IsEvidence(r) <==> !(r.mode == LiveCaptureSuccess && NoPath(saved)))
    {
      hide RequestOf, MintedFor, Valid, Built;
      if reply.Returned? {
        CertifiedIsMinted(reply.result, RequestOf(o));
      }
    }

    /** Swapping the attestations of two attested results invalidates both, and one lent to a result that no wrapper
        minted is worth nothing. */
    lemma LentAttestationFails(r: Result, owner: Result, request: Request)
      requires Valid() && owner in attestations && r != owner && r.attestation == attestations[owner]
      ensures Certified(r, request).None?
    {
    }
  }

  // ---- whole runs ----

  /** One thing that may happen. Objects are named by their position among those made so far; naming none means null.
      Anyone may make adapters and results of their own, and overwrite any result's fields, also with an attestation
      taken from another result. */
  datatype Event =
    | Create
    | MakeAdapter(mock: bool)
    | MakeResult(fields: Fields)
    | Overwrite(target: nat, fields: Fields, lender: nat)
    | Capture(adapter: nat, request: Request, raw: Given, id: Uuid, now: nat)
    | Build(options: Options, status: Status, adapter: nat, reply: Given, saved: Saved)

  /** What a capture method gives in a run: some result made so far, a value that is no object, nothing, or a failure. */
  datatype Given = Object(result: nat) | NoObject | Nothing | Failure

  /** One evidence object built, with what it was built from. */
  datatype Entry = Entry(options: Options, adapter: Adapter?, reply: Reply, saved: Saved, record: Record)

  /** A success is for a factory-made adapter and a result that a factory wrapper minted for the same request. */
  ghost predicate Justified(e: Entry, adapters: set<Adapter>, minted: seq<Mint>) {
    (e.record.mode == LiveCaptureSuccess ==>
      e.adapter != null && e.adapter in adapters && e.reply.Returned? &&
      exists m :: m in minted && m.result == e.reply.result && m.request == RequestOf(e.options) && m.adapter in adapters) &&
    (IsEvidence(e.record) <==> !(e.record.mode == LiveCaptureSuccess && NoPath(e.saved)))
  }

  lemma JustifiedLater(e: Entry, adapters: set<Adapter>, minted: seq<Mint>, adapters': set<Adapter>, minted': seq<Mint>)
    requires Justified(e, adapters, minted) && adapters <= adapters' && minted <= minted'
    ensures Justified(e, adapters', minted')
  {
    assert minted' == minted + minted'[|minted|..];
  }

  function ReplyOf(results: seq<Result>, given: Given): Reply {
    match given
    case Object(n) => if n < |results| then Returned(results[n]) else Nullish
    case NoObject => Primitive
    case Nothing => Nullish
    case Failure => Rejected
  }

  /** Over every sequence of events, every evidence object built is justified. */
  method RunEvents(events: seq<Event>) returns (reg: Registry, log: seq<Entry>)
    ensures fresh(reg) && reg.Valid()
    ensures forall e | e in log :: Justified(e, reg.adapters, reg.minted)
  {
    hide Justified, Built, RequestOf, Consistent, IsEvidence;
    reg := new Registry();
    log := [];
    var adapters: seq<Adapter>, results: seq<Result> := [], [];
    for i := 0 to |events|
      invariant fresh(reg) && reg.Valid()
      invariant forall r | r in results :: fresh(r)
      invariant forall e | e in log :: Justified(e, reg.adapters, reg.minted)
    {
      ghost var known, minted := reg.adapters, reg.minted;
      match events[i] {
        case Create =>
          var a := reg.CreateOfficialAdapter();
          adapters := adapters + [a];
        case MakeAdapter(mock) =>
          var a := new Adapter(mock);
          adapters := adapters + [a];
        case MakeResult(fields) =>
          var r := new Result(fields, null);
          results := results + [r];
        case Overwrite(target, fields, lender) =>
          if target < |results| {
            var r := results[target];
            assert r in results;
            r.fields := fields;
            r.attestation := if lender < |results| then results[lender].attestation else null;
          }
        case Capture(adapter, request, raw, id, now) =>
          if adapter < |adapters| && adapters[adapter] in reg.adapters {
            var reply := reg.WrapperCapture(adapters[adapter], request, ReplyOf(results, raw), id, now);
            if reply.Returned? && reply.result !in results {
              results := results + [reply.result];
            }
          }
        case Build(options, status, adapter, given, saved) =>
          var a: Adapter? := if adapter < |adapters| then adapters[adapter] else null;
          var reply := ReplyOf(results, given);
          var e := reg.BuildLiveEvidence(options, status, a, reply, saved);
          var entry := Entry(options, a, reply, saved, e.Value());
          EntryIsJustified(reg, entry, e);
          log := log + [entry];
      }
      forall e | e in log ensures Justified(e, reg.adapters, reg.minted) {
        if Justified(e, known, minted) {
          JustifiedLater(e, known, minted, reg.adapters, reg.minted);
        }
      }
    }
  }

  lemma EntryIsJustified(reg: Registry, entry: Entry, e: Evidence)
    requires entry.record == e.Value()
    requires e.mode == LiveCaptureSuccess ==>
      entry.adapter != null && entry.adapter in reg.adapters && entry.reply.Returned? &&
      reg.MintedFor(entry.reply.result, RequestOf(entry.options))
    requires IsEvidence(e.Value()) <==> !(e.mode == LiveCaptureSuccess && NoPath(entry.saved))
    ensures Justified(entry, reg.adapters, reg.minted)
  {
  }

  /** The guarantee cannot be stronger: a result minted through one adapter succeeds through another, and again. */
  method OldResultSucceedsElsewhere(o: Options, fields: Fields, id: Uuid, now: nat, saved: Saved)
    returns (reg: Registry, first: Adapter, second: Adapter, once: Evidence, again: Evidence)
    requires o.optIn && o.capture && fields.ok == Yes && saved.File?
    ensures reg.Valid() && first != second && |reg.minted| == 1 && reg.minted[0].adapter == first
    ensures once.mode == LiveCaptureSuccess && again.mode == LiveCaptureSuccess
  {
    hide Consistent, IsEvidence, RequestOf;
    reg := new Registry();
    first := reg.CreateOfficialAdapter();
    second := reg.CreateOfficialAdapter();
    var raw := new Result(fields, null);
    var reply := reg.WrapperCapture(first, RequestOf(o), Returned(raw), id, now);
    once := reg.BuildLiveEvidence(o, Available, second, reply, saved);
    again := reg.BuildLiveEvidence(o, Available, second, reply, saved);
  }
}
