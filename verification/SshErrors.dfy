/**
 How the broker classifies what a dial runs into, by the text of the error, and
 what that means for a probe (internal/sshx/broker.go:285-318).
 */
module SshErrors {
  import opened Base
  import opened Text
  import opened Substitution
  import opened FleetModel
  import opened FleetInvariants
  import opened HostKeys
  import HandlerEffects

  /** `classifyDial`: `expired` is an error that says of itself that it is a timeout. */
  function ClassifyDial(expired: bool, text: Str): Failure {
    if expired then TimeoutFailure
    else if Contains(text, "connection refused") then RefusedFailure
    else if Contains(text, "no route to host") || Contains(text, "network is unreachable") then NoRouteFailure
    else OtherFailure
  }

  /** `classifyHandshake`, for an error that is not the policy's own. */
  function ClassifyHandshake(text: Str): Failure {
    if Contains(text, "unable to authenticate") || Contains(text, "no supported methods remain") then AuthFailure
    else if Contains(text, "i/o timeout") then TimeoutFailure
    else if Contains(text, "host key") then KeyMismatch
    else OtherFailure
  }

  /**
   What a dial runs into: no connection, a handshake that breaks before the host
   shows a key, or a key and perhaps an error after it.
   */
  datatype Attempt =
    | NotConnected(expired: bool, text: Str)
    | NoKeyShown(text: Str)
    | Presented(key: Key, error: Option<Str>)

  function Classified(a: Attempt): Dial {
    match a
    case NotConnected(expired, text) => NoAnswer(ClassifyDial(expired, text))
    case NoKeyShown(text) => NoAnswer(ClassifyHandshake(text))
    case Presented(key, error) =>
      Handshake(key, if error.Some? then Some(ClassifyHandshake(error.value)) else None)
  }

  /** Opening a session fails by the deadline or with an error that has no class of its own. */
  predicate Unclassified(s: Session) {
    s.OpenFails? ==> s.failure in [TimeoutFailure, OtherFailure]
  }

  /** The error text that is taken for a changed key. */
  predicate TakenForMismatch(text: Str) {
    && Contains(text, "host key")
    && !Contains(text, "unable to authenticate") && !Contains(text, "no supported methods remain")
    && !Contains(text, "i/o timeout")
  }

  /** The handshake's own error, if it has one. */
  function HandshakeError(a: Attempt): Option<Str> {
    match a
    case NotConnected(_, _) => None
    case NoKeyShown(text) => Some(text)
    case Presented(_, error) => error
  }

  lemma DialIsNoMismatch(expired: bool, text: Str)
    ensures ClassifyDial(expired, text) != KeyMismatch
  {
  }

  /** The failing branch: a handshake that breaks with such a text, and no key the policy refused. */
  lemma OutsidePolicyIff(f: Fleet, id: Id, a: Attempt, session: Session)
    requires Unclassified(session)
    ensures var net := Net(Classified(a), session);
            MismatchOutsidePolicy(f, id, net) <==>
              !ShowsOtherKey(f, id, net) && HandshakeError(a).Some? && TakenForMismatch(HandshakeError(a).value)
  {
    if a.NotConnected? {
      DialIsNoMismatch(a.expired, a.text);
    }
  }

  /**
   From the error's text to the verdict: a probe says "key changed" exactly when
   the host just showed a key other than the pinned one, or its handshake broke
   with a text that is taken for that.
   */
  lemma ProbeVerdictOfText(f: Fleet, id: Id, a: Attempt, session: Session)
    requires Inv(f) && id in f.db.machines && f.db.machines[id].HasHost()
    requires Unclassified(session)
    ensures var net := Net(Classified(a), session);
            var g := Probe(f, id, net);
            && id in g.db.machines
            && (g.db.machines[id].reach == ReachKeyChanged <==>
                  || ShowsOtherKey(f, id, net)
                  || (HandshakeError(a).Some? && TakenForMismatch(HandshakeError(a).value)))
  {
    ProbeVerdict(f, id, Net(Classified(a), session));
    OutsidePolicyIff(f, id, a, session);
  }

  // ---- Every verdict ---------------------------------------------------------

  /** What an error of the handshake says of the machine. */
  function HandshakeVerdict(text: Str): Reach {
    if Contains(text, "unable to authenticate") || Contains(text, "no supported methods remain") then ReachAuthFailed
    else if Contains(text, "i/o timeout") then ReachTimeout
    else if Contains(text, "host key") then ReachKeyChanged
    else ReachUnknown
  }

  /** What an error of the connection says of it; an unroutable host counts as a timeout. */
  function ConnectionVerdict(expired: bool, text: Str): Reach {
    if expired then ReachTimeout
    else if Contains(text, "connection refused") then ReachRefused
    else if Contains(text, "no route to host") || Contains(text, "network is unreachable") then ReachTimeout
    else ReachUnknown
  }

  function SessionVerdict(s: Session): Reach {
    match s
    case Completes => ReachOk
    case StartExpires => ReachTimeout
    case OpenFails(failure) => if failure == TimeoutFailure then ReachTimeout else ReachUnknown
    case Breaks => ReachUnknown
  }

  lemma ConnectionClass(expired: bool, text: Str)
    ensures ClassifyReach(ClassifyDial(expired, text)) == ConnectionVerdict(expired, text)
  {
  }

  lemma HandshakeClass(text: Str)
    ensures ClassifyReach(ClassifyHandshake(text)) == HandshakeVerdict(text)
  {
  }

  lemma SessionClass(s: Session)
    requires Unclassified(s)
    ensures match s
            case OpenFails(failure) => ClassifyReach(failure) == SessionVerdict(s)
            case StartExpires => ClassifyReach(TimeoutFailure) == SessionVerdict(s)
            case Breaks => ClassifyReach(OtherFailure) == SessionVerdict(s)
            case Completes => SessionVerdict(s) == ReachOk
  {
  }

  /** The verdict a probe leaves, from what the network did and said. */
  lemma VerdictOfText(f: Fleet, id: Id, a: Attempt, session: Session)
    requires Inv(f) && id in f.db.machines && HandlerEffects.Complete(f.db.machines[id]) && Unclassified(session)
    ensures var net := Net(Classified(a), session);
            var g := Probe(f, id, net);
            && id in g.db.machines
            && g.db.machines[id].reach ==
                 if ShowsOtherKey(f, id, net) then ReachKeyChanged
                 else match a
                   case NotConnected(expired, text) => ConnectionVerdict(expired, text)
                   case NoKeyShown(text) => HandshakeVerdict(text)
                   case Presented(_, error) =>
                     if error.Some? then HandshakeVerdict(error.value) else SessionVerdict(session)
  {
    var net := Net(Classified(a), session);
    HandlerEffects.ProbeColumns(f, id, net);
    assert Step(f, DoProbe(id, net)) == Probe(f, id, net);
    VerdictCases(f.(pool := f.pool - {id}), id, a, session);
  }

  lemma VerdictCases(f: Fleet, id: Id, a: Attempt, session: Session)
    requires id !in f.pool && Unclassified(session)
    ensures var net := Net(Classified(a), session);
            HandlerEffects.Verdict(f, id, net) ==
              if ShowsOtherKey(f, id, net) then ReachKeyChanged
              else match a
                case NotConnected(expired, text) => ConnectionVerdict(expired, text)
                case NoKeyShown(text) => HandshakeVerdict(text)
                case Presented(_, error) =>
                  if error.Some? then HandshakeVerdict(error.value) else SessionVerdict(session)
  {
    SessionClass(session);
    match a {
      case NotConnected(expired, text) => ConnectionClass(expired, text);
      case NoKeyShown(text) => HandshakeClass(text);
      case Presented(_, error) =>
        if error.Some? {
          HandshakeClass(error.value);
        }
    }
  }

  // ---- A host without a common algorithm -------------------------------------

  const NO_COMMON: Str := "ssh: no common algorithm for "

  lemma HasChars(s: Str, what: Str)
    requires Contains(s, what)
    ensures forall c <- what :: c in s
  {
    var i :| 0 <= i <= |s| && what <= s[i..];
    forall c | c in what ensures c in s {
      var k :| 0 <= k < |what| && what[k] == c;
      assert s[i + k] == c;
    }
  }

  lemma LacksChar(s: Str, what: Str, c: char)
    requires c in what && c !in s
    ensures !Contains(s, what)
  {
    if Contains(s, what) {
      HasChars(s, what);
    }
  }

  lemma HasInfix(pre: Str, what: Str, post: Str)
    ensures Contains(pre + what + post, what)
  {
    var s := pre + what + post;
    assert s[|pre|..] == what + post;
    assert what <= s[|pre|..];
  }

  lemma NoCommonIsTaken(details: Str)
    requires 'u' !in details && '/' !in details
    ensures TakenForMismatch(NO_COMMON + "host key" + details)
  {
    var text := NO_COMMON + "host key" + details;
    HasInfix(NO_COMMON, "host key", details);
    forall c | c in text ensures c != 'u' && c != '/' {
      assert c in NO_COMMON || c in "host key" || c in details;
    }
    assert "unable to authenticate"[0] == 'u';
    assert "no supported methods remain"[4] == 'u';
    assert "i/o timeout"[1] == '/';
    LacksChar(text, "unable to authenticate", 'u');
    LacksChar(text, "no supported methods remain", 'u');
    LacksChar(text, "i/o timeout", '/');
  }

  /** For one, a host that offers none of our host-key algorithms: "key changed", and no key on record to trust. */
  lemma NoCommonAlgorithm(f: Fleet, id: Id, session: Session, details: Str)
    requires Inv(f) && id in f.db.machines && f.db.machines[id].HasHost() && id !in f.db.hostKeys
    requires 'u' !in details && '/' !in details
    ensures var g := Probe(f, id, Net(Classified(NoKeyShown(NO_COMMON + "host key" + details)), session));
            && id in g.db.machines && g.db.machines[id].reach == ReachKeyChanged
            && id !in g.db.hostKeys
            && forall echoed :: Trust(g, id, echoed) == g
  {
    NoCommonIsTaken(details);
    NothingToTrust(f, id, session);
  }
}
