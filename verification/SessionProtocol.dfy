/**
 The session publication protocol as a transition system.

 Any number of servers, each carrying one operation, share one durable session head and
 one published manifest. A step is one native storage action or one decision of the Rust
 driver; a disabled step changes nothing, so every sequence of steps is a run. A call that
 applies but reports failure is a step that applies, followed by nothing: the driver state
 returns to `Ready` whatever was reported.
 */
module SessionProtocol {
  import opened Common

  type OpId = nat
  type ETag = nat
  type ServerId = nat

  datatype HeadState = Accepted | Publishing | Committed | Failed

  /** One value of the head object: every conditional write gets a new ETag. */
  datatype HeadVersion = HeadVersion(state: HeadState, etag: ETag)

  /** One claim of the session head: the operation, the predecessor ETag its write was
      conditioned on, its checkpoint (the operations it contains, and the manifest version it
      was computed from) and every value the head object took while it named this operation. */
  datatype Claim = Claim(op: OpId, predecessor: Option<ETag>, content: seq<OpId>, base: nat,
                         versions: seq<HeadVersion>)

  /** A published manifest; `base` is the index of the version it replaced. */
  datatype Published = Published(content: seq<OpId>, base: int, bySession: bool)

  datatype Goal = ToAccept | ToPublish

  /** What the Rust driver of one server has established so far. */
  datatype Phase =
    | Ready
    | FoundNew(goal: Goal)
    | Checkpointed(goal: Goal, base: nat)
    | FoundOwn
    | Claimed(content: seq<OpId>, base: nat)
    | Written(content: seq<OpId>, base: nat)

  /** `captured` and `tip` are the head ETag and head contents seen when attaching. */
  datatype Server = Server(op: OpId, captured: Option<ETag>, tip: seq<OpId>, phase: Phase)

  datatype State = State(
    chain: seq<Claim>,
    issued: set<ETag>,
    manifest: seq<Published>,
    servers: map<ServerId, Server>)

  datatype Status = New | IsAccepted | IsCommitted | IsFailed | Conflict

  datatype Step =
    | Attach(server: ServerId, op: OpId)
    | Detach(server: ServerId)
    | CheckStatus(server: ServerId, goal: Goal)
    | Checkpoint(server: ServerId, base: nat)
    | Accept(server: ServerId, etag: ETag)
    | Finalize(server: ServerId, etag: ETag)
    | ClaimPublishing(server: ServerId, etag: ETag)
    | PutManifest(server: ServerId)
    | MarkCommitted(server: ServerId, etag: ETag)
    | Abandon(server: ServerId)
    | PublishElsewhere(content: seq<OpId>)
    | ExpireHead(etag: ETag)

  /** A step that server `s` takes. */
  predicate By(step: Step, s: ServerId) {
    !step.PublishElsewhere? && !step.ExpireHead? && step.server == s
  }

  const Initial := State([], {}, [Published([], -1, false)], map[])

  function Ops(chain: seq<Claim>): seq<OpId> {
    seq(|chain|, i requires 0 <= i < |chain| => chain[i].op)
  }

  function Top(c: Claim): HeadVersion {
    if c.versions == [] then HeadVersion(Failed, 0) else Last(c.versions)
  }

  function CurrentETag(chain: seq<Claim>): Option<ETag> {
    if chain == [] then None else Some(Top(Last(chain)).etag)
  }

  predicate Sealed(c: Claim) {
    Top(c).state == Publishing || Top(c).state == Committed
  }

  predicate SealedHead(chain: seq<Claim>) {
    chain != [] && Sealed(Last(chain))
  }

  /** The head crossed the publication fence at some time, even if it has expired since. */
  predicate Crossed(c: Claim) {
    exists k :: 0 <= k < |c.versions| && (c.versions[k].state == Publishing || c.versions[k].state == Committed)
  }

  predicate CrossedHead(chain: seq<Claim>) {
    chain != [] && Crossed(Last(chain))
  }

  /** Cleanup marked the head expired; it is never a predecessor again. */
  predicate ExpiredHead(chain: seq<Claim>) {
    chain != [] && Top(Last(chain)).state == Failed
  }

  /** The native answer for the attachment of `sv`. */
  function StatusOf(st: State, sv: Server): Status {
    if st.chain == [] then New
    else
      var head := Last(st.chain);
      if head.op != sv.op then
        if Sealed(head) || CurrentETag(st.chain) != sv.captured || sv.op in Ops(st.chain) then Conflict else New
      else match Top(head).state
        case Committed => IsCommitted
        case Accepted => IsAccepted
        case Publishing => IsAccepted
        case Failed => IsFailed
  }

  function Set(st: State, s: ServerId, sv: Server, phase: Phase): State {
    st.(servers := st.servers[s := sv.(phase := phase)])
  }

  /** The head object is rewritten in place with a new state. */
  function Retag(st: State, state: HeadState, etag: ETag): State
    requires st.chain != []
  {
    var head := Last(st.chain);
    st.(chain := st.chain[|st.chain| - 1 := head.(versions := head.versions + [HeadVersion(state, etag)])],
        issued := st.issued + {etag})
  }

  /** A write of the head conditioned on the ETag captured when attaching. */
  function CompareAndClaim(st: State, sv: Server, base: nat, state: HeadState, etag: ETag): State {
    if CurrentETag(st.chain) != sv.captured || etag in st.issued then st
    else
      var claim := Claim(sv.op, sv.captured, sv.tip + [sv.op], base, [HeadVersion(state, etag)]);
      st.(chain := st.chain + [claim], issued := st.issued + {etag})
  }

  /**
   The native accept. It reports success without a write if the head already is this operation
   with this checkpoint. It refuses a head that another operation is publishing or has published,
   an operation that occurs earlier in the session, and a manifest that changed since the
   checkpoint; otherwise it compares and swaps.
   */
  function NativeAccept(st: State, sv: Server, base: nat, etag: ETag): State {
    if st.chain != [] && Last(st.chain).op == sv.op && Last(st.chain).content == sv.tip + [sv.op] &&
       Last(st.chain).base == base &&
       (Top(Last(st.chain)).state == Accepted || Top(Last(st.chain)).state == Committed) then st
    else if SealedHead(st.chain) && Last(st.chain).op != sv.op then st
    else if st.chain != [] && CurrentETag(st.chain) == sv.captured && Last(st.chain).op != sv.op &&
            sv.op in Ops(st.chain) then st
    else if |st.manifest| - 1 != base then st
    else CompareAndClaim(st, sv, base, Accepted, etag)
  }

  function AfterStatus(status: Status, goal: Goal): Phase {
    match status
    case New => FoundNew(goal)
    case IsAccepted => if goal.ToPublish? then FoundOwn else Ready
    case IsCommitted => if goal.ToPublish? then FoundOwn else Ready
    case IsFailed => Ready
    case Conflict => Ready
  }

  function ServerStep(st: State, sv: Server, step: Step): State
    requires !step.PublishElsewhere? && !step.ExpireHead?
  {
    var s := step.server;
    match step
    case Attach(_, _) => st
    case Detach(_) => st.(servers := st.servers - {s})
    case CheckStatus(_, goal) => Set(st, s, sv, AfterStatus(StatusOf(st, sv), goal))
    case Checkpoint(_, base) =>
      if sv.phase.FoundNew? && base < |st.manifest| then Set(st, s, sv, Checkpointed(sv.phase.goal, base)) else st
    case Accept(_, etag) =>
      if sv.phase.Checkpointed? && sv.phase.goal.ToAccept?
      then Set(NativeAccept(st, sv, sv.phase.base, etag), s, sv, Ready) else st
    case Finalize(_, etag) =>
      if !(sv.phase.Checkpointed? && sv.phase.goal.ToPublish?) then st
      else if CurrentETag(st.chain) != sv.captured || etag in st.issued then Set(st, s, sv, Ready)
      else Set(CompareAndClaim(st, sv, sv.phase.base, Publishing, etag), s, sv,
               Claimed(sv.tip + [sv.op], sv.phase.base))
    case ClaimPublishing(_, etag) =>
      if !sv.phase.FoundOwn? then st
      else if st.chain == [] then Set(st, s, sv, Ready)
      else
        var head := Last(st.chain);
        if Sealed(head) then Set(st, s, sv, Claimed(head.content, head.base))
        else if Top(head).state != Accepted || etag in st.issued then Set(st, s, sv, Ready)
        else Set(Retag(st, Publishing, etag), s, sv, Claimed(head.content, head.base))
    case PutManifest(_) =>
      if !sv.phase.Claimed? || st.manifest == [] then st
      else if IsCandidate(Last(st.manifest), sv.phase.content, sv.phase.base) then
        Set(st, s, sv, Written(sv.phase.content, sv.phase.base))
      else if |st.manifest| - 1 != sv.phase.base then Set(st, s, sv, Ready)
      else
        var put := Published(sv.phase.content, sv.phase.base, true);
        Set(st.(manifest := st.manifest + [put]), s, sv, Written(sv.phase.content, sv.phase.base))
    case MarkCommitted(_, etag) =>
      if !sv.phase.Written? then st
      else if st.chain == [] || ExpiredHead(st.chain) || Top(Last(st.chain)).state == Committed || etag in st.issued
      then Set(st, s, sv, Ready)
      else Set(Retag(st, Committed, etag), s, sv, Ready)
    case Abandon(_) => Set(st, s, sv, Ready)
  }

  function Next(st: State, step: Step): State {
    match step
    case PublishElsewhere(content) =>
      st.(manifest := st.manifest + [Published(content, |st.manifest| - 1, false)])
    case ExpireHead(etag) =>
      if st.chain == [] || ExpiredHead(st.chain) || etag in st.issued then st else Retag(st, Failed, etag)
    case Attach(s, op) =>
      if s in st.servers || ExpiredHead(st.chain) then st
      else
        var tip := if st.chain == [] then [] else Last(st.chain).content;
        st.(servers := st.servers[s := Server(op, CurrentETag(st.chain), tip, Ready)])
    case _ =>
      if step.server in st.servers then ServerStep(st, st.servers[step.server], step) else st
  }

  function Run(st: State, steps: seq<Step>): State {
    if steps == [] then st else Next(Run(st, steps[..|steps| - 1]), Last(steps))
  }

  // ---------------------------------------------------------------- invariant

  predicate Edge(a: HeadState, b: HeadState) {
    (a == Accepted && b == Publishing) || (a == Publishing && b == Committed) || (a != Failed && b == Failed)
  }

  /** The life of one head object: claimed once, then only forward. */
  predicate Life(versions: seq<HeadVersion>) {
    && versions != []
    && (versions[0].state == Accepted || versions[0].state == Publishing)
    && forall k :: 0 < k < |versions| ==> Edge(versions[k - 1].state, versions[k].state)
  }

  predicate LinkOk(chain: seq<Claim>, i: nat)
    requires i < |chain|
  {
    && Life(chain[i].versions)
    && chain[i].predecessor == CurrentETag(chain[..i])
    && chain[i].content == Ops(chain[..i + 1])
    && (i < |chain| - 1 ==> Top(chain[i]).state == Accepted)
  }

  predicate ChainOk(chain: seq<Claim>) {
    && (forall i :: 0 <= i < |chain| ==> LinkOk(chain, i))
    && (forall i, j :: 0 <= i < j < |chain| ==> chain[i].op != chain[j].op)
  }

  predicate ETagsOk(st: State) {
    && (forall i, k :: 0 <= i < |st.chain| && 0 <= k < |st.chain[i].versions| ==>
          st.chain[i].versions[k].etag in st.issued)
    && (forall i, k, j, l | 0 <= i < |st.chain| && 0 <= k < |st.chain[i].versions| &&
                            0 <= j < |st.chain| && 0 <= l < |st.chain[j].versions| ::
          st.chain[i].versions[k].etag == st.chain[j].versions[l].etag ==> i == j && k == l)
  }

  /** A candidate is known by the operations it holds and the version it was computed from. The
      native code compares bytes; here a manifest that some other upload published over the same
      version with the same operations counts as equal too. */
  predicate IsCandidate(put: Published, content: seq<OpId>, base: nat) {
    put.content == content && put.base == base
  }

  predicate Visible(manifest: seq<Published>, content: seq<OpId>, base: nat) {
    exists i :: 0 <= i < |manifest| && IsCandidate(manifest[i], content, base)
  }

  predicate WasCommitted(c: Claim) {
    exists k :: 0 <= k < |c.versions| && c.versions[k].state == Committed
  }

  predicate ManifestOk(st: State) {
    && st.manifest != []
    && !st.manifest[0].bySession
    && (forall i :: 0 <= i < |st.manifest| ==> st.manifest[i].base == i - 1)
    && (st.chain != [] ==> Last(st.chain).base < |st.manifest|)
    && (forall i :: 0 <= i < |st.manifest| && st.manifest[i].bySession ==>
          CrossedHead(st.chain) && IsCandidate(st.manifest[i], Last(st.chain).content, Last(st.chain).base))
    && (st.chain != [] && WasCommitted(Last(st.chain)) ==>
          Visible(st.manifest, Last(st.chain).content, Last(st.chain).base))
  }

  predicate HeadIs(chain: seq<Claim>, content: seq<OpId>, base: nat) {
    CrossedHead(chain) && Last(chain).content == content && Last(chain).base == base
  }

  /** No manifest can be written any more for this candidate, nor is it the one visible now. */
  predicate Stale(manifest: seq<Published>, content: seq<OpId>, base: nat) {
    base < |manifest| - 1 && !IsCandidate(Last(manifest), content, base)
  }

  predicate ServerOk(st: State, sv: Server) {
    && (sv.captured.Some? ==> sv.captured.value in st.issued)
    && (sv.captured.None? ==> sv.tip == [])
    && (sv.captured == CurrentETag(st.chain) ==> sv.tip == Ops(st.chain) && !ExpiredHead(st.chain))
    && match sv.phase
       case Ready => true
       case FoundNew(_) => sv.captured == CurrentETag(st.chain) ==> Extensible(st, sv)
       case Checkpointed(_, base) =>
         base < |st.manifest| && (sv.captured == CurrentETag(st.chain) ==> Extensible(st, sv))
       case FoundOwn => true
       case Claimed(content, base) => HeadIs(st.chain, content, base) || Stale(st.manifest, content, base)
       case Written(content, base) => HeadIs(st.chain, content, base) && Visible(st.manifest, content, base)
  }

  /** The operation is not yet in the session and the head may be extended. */
  predicate Extensible(st: State, sv: Server) {
    sv.op !in Ops(st.chain) && (st.chain != [] ==> Top(Last(st.chain)).state == Accepted)
  }

  /** What a server found in the session is in the session. */
  predicate Knows(st: State, sv: Server) {
    sv.phase.FoundOwn? || sv.phase.Claimed? || sv.phase.Written? ==> sv.op in Ops(st.chain)
  }

  predicate AllKnow(st: State) {
    forall s :: s in st.servers ==> Knows(st, st.servers[s])
  }

  predicate Inv(st: State) {
    && ChainOk(st.chain)
    && ETagsOk(st)
    && ManifestOk(st)
    && forall s :: s in st.servers ==> ServerOk(st, st.servers[s])
  }
}
