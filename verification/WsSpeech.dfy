// What the client of a call is sent when a reply is delivered: what the call's handler says, until it
// completes the call, and then the reply.

module WsSpeech {
  import opened Lists
  import opened Bytes
  import opened WsModel
  import opened WsInvariant
  import opened WsForwarding
  import opened WsReplying
  import opened WsMeaning
  import opened WsDelivery
  import opened WsTerms

  /** The bodies of the frames: nothing is sent any more once the handler has completed its call. */
  function Spoken(ops: seq<HandlerOp>, payload: seq<byte>): seq<Body>
    decreases |ops|
  {
    if ops == [] then (if payload == [] then [] else [Reply(payload)])
    else match ops[0]
      case Finish => []
      case Say(json) => [Said(json)] + Spoken(ops[1..], payload)
  }

  /** Frames for one call, the first of which is attempt number `from`. */
  function FramesOf(env: Env, x: Ptr, serial: nat, bodies: seq<Body>, from: nat): seq<Frame> {
    seq(|bodies|, i requires 0 <= i < |bodies| => Frame(x, serial, bodies[i], env.accepts(from + i)))
  }

  /** A handler run on a call, and then the reply. */
  function Speak(env: Env, s: State, p: Ptr, ops: seq<HandlerOp>, payload: seq<byte>): State {
    var s1 := RunHandler(env, s, p, ops);
    if payload != [] then Emit(env, s1, p, Reply(payload)) else s1
  }

  ghost predicate Hearing(s: State, p: Ptr) {
    && p in s.calls && (p in s.active || p in s.waiting) && s.calls[p].pending <= 1
    && s.calls[p].session.Some? && s.calls[p].session.value in s.sessions
  }

  /** A call without a session is sent nothing. */
  lemma {:induction false} DeafHearsNothing(env: Env, s: State, p: Ptr, ops: seq<HandlerOp>, payload: seq<byte>)
    requires p in s.calls && (p in s.active || p in s.waiting) && s.calls[p].session.None?
    ensures Speak(env, s, p, ops, payload).log == s.log
    decreases |ops|
  {
    if ops != [] { DeafHearsNothing(env, HandlerStep(env, s, p, ops[0]), p, ops[1..], payload); }
  }

  lemma FramesMore(env: Env, x: Ptr, serial: nat, body: Body, rest: seq<Body>, log: seq<Frame>)
    ensures log + FramesOf(env, x, serial, [body] + rest, |log|)
            == (log + [Frame(x, serial, body, env.accepts(|log|))]) + FramesOf(env, x, serial, rest, |log| + 1)
  {}

  lemma {:induction false} SpeakFrames(env: Env, s: State, p: Ptr, ops: seq<HandlerOp>, payload: seq<byte>)
    requires Hearing(s, p)
    ensures Speak(env, s, p, ops, payload).log
            == s.log + FramesOf(env, s.calls[p].session.value, s.calls[p].serial, Spoken(ops, payload), |s.log|)
    decreases |ops|
  {
    var x, serial := s.calls[p].session.value, s.calls[p].serial;
    if ops == [] {
      if payload != [] {
        assert FramesOf(env, x, serial, [Reply(payload)], |s.log|)
          == [Frame(x, serial, Reply(payload), env.accepts(|s.log|))];
      }
    } else {
      var s1 := HandlerStep(env, s, p, ops[0]);
      assert Speak(env, s, p, ops, payload) == Speak(env, s1, p, ops[1..], payload);
      if ops[0].Say? {
        SpeakFrames(env, s1, p, ops[1..], payload);
        FramesMore(env, x, serial, Said(ops[0].json), Spoken(ops[1..], payload), s.log);
      } else {
        DeafHearsNothing(env, s1, p, ops[1..], payload);
      }
    }
  }

  /** What the handler of a call does with a payload, if it has one. */
  function Operations(env: Env, c: Call, handled: bool, payload: seq<byte>, sends: nat): seq<HandlerOp> {
    if handled then env.handler(c, payload, sends) else []
  }

  lemma DeliverOneFrames(env: Env, s: State, p: Ptr, payload: seq<byte>)
    requires Inv(s, {}) && Reachable(s, p)
    ensures var c := s.calls[p];
            DeliverOne(env, s, p, payload).log
            == s.log + FramesOf(env, c.session.value, c.serial,
                                Spoken(Operations(env, c, c.handled, payload, |s.log|), payload), |s.log|)
  {
    hide Inv, Spoken, FramesOf;
    var c := s.calls[p];
    OnePending(s, p);
    SpeakFrames(env, s, p, Operations(env, c, c.handled, payload, |s.log|), payload);
    NotifyKeeps(env, s, p, payload);
    assert Notify(env, s, p, payload) == Speak(env, s, p, Operations(env, c, c.handled, payload, |s.log|), payload);
  }

  lemma OnePending(s: State, p: Ptr)
    requires Inv(s, {}) && p in s.calls
    ensures s.calls[p].pending <= 1
  {
    assert CallOk(s, p, {});
  }

  /** In every run, whatever follows a request that is taken on: when a reply is delivered to its call, the
      client is sent what the handler says, until that completes the call, and then the payload; and there is a
      handler exactly if one was registered for the FID when the request came. */
  lemma DeliveredAsRegistered(env: Env, before: seq<Event>, x: Ptr, req: Request, after: seq<Event>, i: nat)
    requires env.Fair() && TakenOn(Run(env, Initial, before), x, req)
    requires var s := Run(env, Initial, before);
             var t := Run(env, Step(env, s, Text(x, req)), after);
             && t.inHand.Some? && i < |Addressees(t, t.inHand.value)|
             && Addressees(t, t.inHand.value)[i] in t.calls
             && t.calls[Addressees(t, t.inHand.value)[i]].serial == s.created
    ensures var s := Run(env, Initial, before);
            var t := Run(env, Step(env, s, Text(x, req)), after);
            var ps := Addressees(t, t.inHand.value);
            var c := t.calls[ps[i]];
            forall payload: seq<byte> ::
              var mid := DeliverAll(env, t, ps[..i], payload);
              var ops := Operations(env, c, Wrap(req.fid) in s.handlers, payload, |mid.log|);
              c.session.Some? && DeliverOne(env, mid, ps[i], payload).log
              == mid.log + FramesOf(env, c.session.value, s.created, Spoken(ops, payload), |mid.log|)
  {
    hide Step, Run, Inv, DeliverOne, Spoken, FramesOf, Addressees;
    var s := Run(env, Initial, before);
    var t := Run(env, Step(env, s, Text(x, req)), after);
    var ps := Addressees(t, t.inHand.value);
    RunsSound(env, before, Text(x, req), after);
    AddresseesReady(t, t.inHand.value);
    forall p | p in ps ensures Reachable(t, p) { CallFacts(t, p); }
    CallAsAsked(env, before, x, req, after, ps[i]);
    forall payload: seq<byte>
      ensures var mid := DeliverAll(env, t, ps[..i], payload);
              var ops := Operations(env, t.calls[ps[i]], Wrap(req.fid) in s.handlers, payload, |mid.log|);
              t.calls[ps[i]].session.Some? && DeliverOne(env, mid, ps[i], payload).log
              == mid.log + FramesOf(env, t.calls[ps[i]].session.value, s.created, Spoken(ops, payload), |mid.log|)
    {
      NotYetServed(env, t, ps, payload, i);
      DeliverOneFrames(env, DeliverAll(env, t, ps[..i], payload), ps[i], payload);
    }
  }
}
