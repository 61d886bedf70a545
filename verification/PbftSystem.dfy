/**
 * A PBFT cluster: correct replicas, faulty ones that may send anything under their own name or reuse a signature
 * they have seen, and the network.
 */
module PbftSystem {
  import opened Options
  import opened PbftMessages
  import opened PbftNewView
  import opened PbftReplica
  import opened Quorum

  /**
   * `sent` only grows and any message in it may be delivered to any replica, at any time, any number of
   * times. `loopback` says whether a multicast also reaches its sender, `reuse` whether a signature can be put
   * on another message with the same signed bytes. Two fields are histories: `own` holds what correct replicas
   * themselves sent, `decided` which replica committed what, kept even after the entry was collected.
   */
  datatype System = System(
    n: nat,
    f: nat,
    faulty: set<nat>,
    loopback: bool,
    reuse: bool,
    replicas: map<nat, ReplicaState>,
    sent: set<Message>,
    own: set<Message>,
    decided: set<(nat, Decision)>)

  /** What a correct replica may do next. */
  datatype Event =
    | Receive(m: Message, connected: bool, proposals: seq<Proposal>)
    | Propose(ts: int)
    | Timeout(certs: seq<Vote>)
    | Adopt(view: nat)
    | Take
    | Deliver

  ghost predicate Enabled(r: ReplicaState, ev: Event) {
    && r.n > 0
    && match ev
       case Receive(m, _, ps) =>
         m.ViewChange? && r.CompletesViewChange(m) ==>
           var ms := r.CollectViewChange(m).Values;
           ViewChanges(ms) && IsNewViewSet(r.log.lastStable, ms, ps)
       case Timeout(certs) => r.PreparedCertificates(certs)
       case Take => r.deliverCh != []
       case _ => true
  }

  ghost function Handle(r: ReplicaState, ev: Event): Outcome
    requires Enabled(r, ev)
  {
    match ev
    case Receive(m, connected, ps) =>
      (match m
       case PrePrepare(_, _, _, _, _) => r.OnPrePrepare(m, connected)
       case Prepare(_, _, _, _) => r.OnPrepare(m, connected)
       case Commit(_, _, _, _) => r.OnCommit(m)
       case Checkpoint(_, _, _) => r.OnCheckpoint(m)
       case ViewChange(_, _, _, _) => r.OnViewChange(m, ps)
       case NewView(_, _, _) => r.OnNewView(m))
    case Propose(ts) => r.Propose(ts)
    case Timeout(certs) => r.StartViewChange(certs)
    case Adopt(view) => r.AdoptView(view)
    case Take => r.Take()
    case Deliver => r.DeliverNext()
  }

  ghost predicate Init(s: System) {
    && s.n == 3 * s.f + 1
    && s.faulty <= Cluster(s.n) && |s.faulty| <= s.f
    && s.replicas.Keys == Cluster(s.n) - s.faulty
    && (forall i :: i in s.replicas ==> s.replicas[i] == NewReplica(i, s.n))
    && s.sent == {} && s.own == {} && s.decided == {}
  }

  ghost predicate CanHandle(s: System, i: nat, ev: Event) {
    && i in s.replicas && Enabled(s.replicas[i], ev)
    && (ev.Receive? ==> ev.m in s.sent && (s.loopback || ev.m.from != i))
  }

  ghost function Decisions(i: nat, d: Option<Decision>): set<(nat, Decision)> {
    if d.Some? then {(i, d.value)} else {}
  }

  ghost function After(s: System, i: nat, ev: Event): System
    requires CanHandle(s, i, ev)
  {
    var o := Handle(s.replicas[i], ev);
    s.(replicas := s.replicas[i := o.state],
       sent := s.sent + Elements(o.sent),
       own := s.own + Elements(o.sent),
       decided := s.decided + Decisions(i, o.decided))
  }

  ghost predicate CorrectStep(s: System, s': System) {
    exists i, ev :: CanHandle(s, i, ev) && s' == After(s, i, ev)
  }

  ghost predicate FaultyStep(s: System, s': System) {
    exists m: Message :: m.from in s.faulty && s' == s.(sent := s.sent + {m})
  }

  /** What a signature covers: one and the same text for a prepare and a commit, and not every field of the others. */
  datatype Signed =
    | SignedPrePrepare(from: nat, view: nat, num: nat, digest: Digest)
    | SignedVote(from: nat, view: nat, num: nat, digest: Digest)
    | SignedCheckpoint(from: nat, num: nat, digest: Digest)
    | SignedViewChange(from: nat, newView: nat, lastStable: nat)
    | SignedNewView(from: nat, newView: nat)

  function SignedPart(m: Message): Signed {
    match m
    case PrePrepare(from, view, num, _, digest) => SignedPrePrepare(from, view, num, digest)
    case Prepare(from, view, num, digest) => SignedVote(from, view, num, digest)
    case Commit(from, view, num, digest) => SignedVote(from, view, num, digest)
    case Checkpoint(from, num, digest) => SignedCheckpoint(from, num, digest)
    case ViewChange(from, newView, lastStable, _) => SignedViewChange(from, newView, lastStable)
    case NewView(from, newView, _) => SignedNewView(from, newView)
  }

  /** Anyone can put a signature seen before on a message with the same signed part. */
  ghost predicate ReuseStep(s: System, s': System) {
    exists m, m' :: Reuses(s, m, m') && s' == s.(sent := s.sent + {m'})
  }

  ghost predicate Reuses(s: System, m: Message, m': Message) {
    s.reuse && m in s.sent && SignedPart(m') == SignedPart(m)
  }

  ghost predicate Next(s: System, s': System) {
    CorrectStep(s, s') || FaultyStep(s, s') || ReuseStep(s, s')
  }

  /** Step k of a run, which leads to state k. */
  ghost predicate StepOf(trace: seq<System>, k: nat)
    requires 0 < k < |trace|
  {
    Next(trace[k - 1], trace[k])
  }

  ghost predicate IsRun(trace: seq<System>) {
    && trace != [] && Init(trace[0])
    && forall k :: 0 < k < |trace| ==> StepOf(trace, k)
  }
}
