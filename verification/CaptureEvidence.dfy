/** The evidence record of a live capture and the rules that fill it (src/core/computer-use-live-evidence.ts 206-321,
    351-426), on values: what the capture attempt found out is given as an adapter kind, an answer and a saved file. */
module CaptureEvidence {

  import opened Common

  datatype Status = Available | CodexAppMissing | MacosPermissionMissing | CodexAppCapabilityMissing
                  | ExternalCapabilityBlocked | NotMacos | Unknown

  /** A host refusal without a code reads as an external capability block. */
  datatype Blocker = BadStatus(status: Status) | AdapterMissing | AdapterUntrusted | CaptureFailed | AttestationInvalid
                   | HostRefused(code: Option<string>) | ActionAdapterMissing

  datatype Mode = ProbeOnly | LiveCaptureAttempted | LiveCaptureSuccess | LiveCaptureBlocked

  /** What a capture is asked for; the request binding, a digest of it, is taken to be injective. */
  datatype Request = Request(root: string, route: Option<string>, mission: Option<string>, output: string)

  datatype Options = Options(root: string, route: string, mission: string, optIn: bool, capture: bool, action: bool)

  type Uuid = s: string | s != "" witness "0"

  type Digest = s: string | |s| == 64 && forall c | c in s :: '0' <= c <= '9' || 'a' <= c <= 'f' witness seq(64, _ => '0')

  /** What evidence keeps of an attestation. */
  datatype Stamp = Stamp(id: Uuid, issuedAt: nat, binding: Request)

  datatype Source = Host | MockFixture | Untrusted | Missing

  datatype Provenance = Provenance(source: Source, verified: bool, stamp: Option<Stamp>)

  datatype CaptureStatus = NotAttempted | Captured | Blocked | Failed

  datatype Shot = Shot(attempted: bool, status: CaptureStatus, path: Option<string>, digest: Option<Digest>,
                       redacted: bool, localOnly: bool, provenance: Provenance)

  datatype Record = Record(mode: Mode, status: Status, shot: Shot, actionBlocked: bool, screenContent: bool,
                           redactionRequired: bool, blockers: seq<Blocker>)

  /** How the registry knows the adapter that was supplied. */
  datatype Kind = NoAdapter | Official | Mock | Literal

  /** What came back: a failed call, a refusal, or a result with its attestation if that holds up. */
  datatype Answer = Threw | Refused(blocker: Option<string>) | Accepted(stamp: Option<Stamp>, redacted: bool, localOnly: bool)

  /** The captured file's path relative to the root, or a failure to write or read it. */
  datatype Saved = File(path: string, digest: Digest) | NotSaved

  /** The captured file is the root itself. */
  predicate NoPath(s: Saved) { s.File? && s.path == "" }

  function OrNull(s: string): Option<string> { if s == "" then None else Some(s) }

  /** Where the screenshot goes; a mission id is one path component. */
  function ArtifactPath(root: string, mission: Option<string>): string {
    root + (if mission.Some? then "/.sneakoscope/missions/" + mission.value else "/.sneakoscope/reports")
      + "/computer-use-live-screenshot.png"
  }

  function RequestOf(o: Options): Request {
    Request(o.root, OrNull(o.route), OrNull(o.mission), ArtifactPath(o.root, OrNull(o.mission)))
  }

  function Initial(o: Options, status: Status): Record {
    Record(if o.optIn && status != NotMacos then LiveCaptureAttempted else ProbeOnly, status,
           Shot(false, NotAttempted, None, None, false, true, Provenance(Missing, false, None)), false, false, false, [])
  }

  function SourceOf(k: Kind): Source {
    match k case NoAdapter => Missing case Official => Host case Mock => MockFixture case Literal => Untrusted
  }

  /** Two records that differ in what the attempt found at most. */
  predicate SameRun(r: Record, e: Record) { e.mode == r.mode && e.status == r.status && e.screenContent == r.screenContent }

  function Stopped(r: Record, status: CaptureStatus, blocker: Blocker): (e: Record)
    ensures SameRun(r, e) && e.shot.status == status && e.blockers != []
  {
    r.(shot := r.shot.(status := status), blockers := r.blockers + [blocker])
  }

  function Attributed(r: Record, provenance: Provenance): (e: Record)
    ensures SameRun(r, e) && e.shot.provenance == provenance && e.blockers == r.blockers
  {
    r.(shot := r.shot.(provenance := provenance))
  }

  function Kept(r: Record, s: Saved, redacted: bool, localOnly: bool): (e: Record)
    requires s.File?
    ensures SameRun(r, e) && e.shot.status == Captured && e.shot.provenance == r.shot.provenance && e.blockers == r.blockers
    ensures e.shot.path == Some(s.path) && e.shot.digest == Some(s.digest)
  {
    r.(shot := r.shot.(status := Captured, path := Some(s.path), digest := Some(s.digest), redacted := redacted,
                       localOnly := localOnly), redactionRequired := redacted)
  }

  /** The record after a capture attempt: a screenshot exactly when the adapter is official, the result attested and its
      file saved, and a blocker otherwise. */
  function Attempted(r: Record, k: Kind, a: Answer, s: Saved): (e: Record)
    requires r.shot.status == NotAttempted
    ensures SameRun(r, e)
    ensures e.shot.status == Captured <==> k == Official && a.Accepted? && a.stamp.Some? && s.File?
    ensures e.shot.status == Captured ==>
      (e.shot.provenance == Provenance(Host, true, a.stamp) && e.shot.path == Some(s.path) && e.shot.digest == Some(s.digest) &&
       e.blockers == r.blockers)
    ensures e.shot.status != Captured ==> e.blockers != []
  {
    hide Stopped, Attributed, Kept;
    var tried := r.(shot := r.shot.(attempted := true));
    if k == NoAdapter then Stopped(tried, Blocked, AdapterMissing)
    else
      var known := Attributed(tried, Provenance(SourceOf(k), false, None));
      if k != Official then Stopped(known, Blocked, AdapterUntrusted)
      else match a
        case Threw => Stopped(known, Failed, CaptureFailed)
        case Refused(b) => Stopped(known, Blocked, HostRefused(b))
        case Accepted(stamp, redacted, localOnly) =>
          if stamp.None? then Stopped(known, Blocked, AttestationInvalid)
          else
            var verified := Attributed(known, Provenance(Host, true, stamp));
            if s.NotSaved? then Stopped(verified, Failed, CaptureFailed)
            else Kept(verified, s, redacted, localOnly)
  }

  function WithAction(r: Record, action: bool): Record {
    if action then r.(actionBlocked := true, blockers := r.blockers + [ActionAdapterMissing]) else r
  }

  function Concluded(r: Record): Record {
    if r.shot.status == Captured && r.shot.provenance.verified then r.(mode := LiveCaptureSuccess, screenContent := true)
    else if r.blockers != [] then r.(mode := LiveCaptureBlocked)
    else r
  }

  /** The record that is built from the options, the reported status and what the capture attempt found out. Success is
      claimed exactly with an official adapter and an attested result whose file was saved; it carries that attestation
      and file. A blocked record names a blocker. The record passes the reader's check, unless the captured file is the
      root itself, whose relative path is empty. */
  function Built(o: Options, status: Status, k: Kind, a: Answer, s: Saved): (r: Record)
    ensures r.mode == LiveCaptureSuccess <==> Attests(o, status, k, a, s)
    ensures r.mode == LiveCaptureSuccess ==>
      r.shot.provenance == Provenance(Host, true, a.stamp) && r.shot.path == Some(s.path) && r.shot.digest == Some(s.digest)
    ensures r.mode == ProbeOnly <==> !o.optIn || status == NotMacos
    ensures r.mode == LiveCaptureAttempted <==> o.optIn && status == Available && !o.capture && !o.action
    ensures r.mode == LiveCaptureBlocked ==> r.blockers != []
    ensures r.mode == LiveCaptureSuccess ==> (r.blockers != [] <==> o.action)
    ensures r.screenContent <==> r.mode == LiveCaptureSuccess
    ensures IsEvidence(r) <==> !(r.mode == LiveCaptureSuccess && NoPath(s))
  {
    hide Attempted;
    var r := Initial(o, status);
    if !o.optIn then r
    else if status == NotMacos then r.(mode := ProbeOnly, blockers := [BadStatus(NotMacos)])
    else if status != Available then
      r.(mode := LiveCaptureBlocked, blockers := [BadStatus(status)],
         shot := r.shot.(status := if o.capture then Blocked else NotAttempted, attempted := o.capture))
    else Concluded(WithAction(if o.capture then Attempted(r, k, a, s) else r, o.action))
  }

  /** The check that a reader makes of a record. */
  predicate IsEvidence(r: Record) {
    r.mode == LiveCaptureSuccess ==>
      r.shot.status == Captured && r.shot.path.Some? && r.shot.path.value != "" && r.shot.digest.Some? &&
      r.shot.provenance.source == Host && r.shot.provenance.verified && r.shot.provenance.stamp.Some?
  }

  /** What it takes to succeed. */
  predicate Attests(o: Options, status: Status, k: Kind, a: Answer, s: Saved) {
    o.optIn && status == Available && o.capture && k == Official && a.Accepted? && a.stamp.Some? && s.File?
  }

  /** The root given is a regular file and the capture is that file: success is claimed and the reader refuses it. */
  lemma RootFileIsRefused(stamp: Stamp, digest: Digest)
    ensures var r := Built(Options("/shot.png", "", "", true, true, false), Available, Official,
                           Accepted(Some(stamp), false, true), File("", digest));
            r.mode == LiveCaptureSuccess && !IsEvidence(r)
  {
    hide Built;
  }
}
