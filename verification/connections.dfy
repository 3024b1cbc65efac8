/** The connection loop and the cleanup loop as runs: which envelopes are answered, and with what. */
module Connections {
  import opened Wrappers
  import opened Crypto
  import opened Replay
  import opened Store
  import opened Messages
  import opened HandlerSpec
  import opened Lifecycle
  import opened Server

  function Arrivals(ses: Session, mail: seq<(Envelope, Ambient)>): seq<Event> {
    seq(|mail|, i requires 0 <= i < |mail| => Arrive(ses, mail[i].0, mail[i].1))
  }

  function Cleanups(ticks: seq<Tick>): seq<Event> {
    seq(|ticks|, i requires 0 <= i < |ticks| => Cleanup(ticks[i]))
  }

  /** A run may be split after its first event. */
  lemma {:induction false} AfterFirst(cfg: Config, s: State, e: Event, es: seq<Event>)
    ensures After(cfg, s, [e] + es) == After(cfg, Step(cfg, s, e), es)
  {
    var all := [e] + es;
    if es == [] {
      assert all[..0] == [];
    } else {
      assert all[..|all| - 1] == [e] + es[..|es| - 1];
      AfterFirst(cfg, s, e, es[..|es| - 1]);
    }
  }

  /** The reply that envelope i of the session gets when all before it were handled. */
  function ReplyAt(cfg: Config, s: State, ses: Session, mail: seq<(Envelope, Ambient)>, i: nat): Reply
    requires i < |mail|
  {
    Handle(cfg, After(cfg, s, Arrivals(ses, mail[..i])), ses, mail[i].0, mail[i].1).reply
  }

  lemma ReplyAtTail(cfg: Config, s: State, ses: Session, mail: seq<(Envelope, Ambient)>, i: nat)
    requires 0 < i < |mail|
    ensures ReplyAt(cfg, s, ses, mail, i) == ReplyAt(cfg, Handle(cfg, s, ses, mail[0].0, mail[0].1).state, ses, mail[1..], i - 1)
  {
    var e := Arrive(ses, mail[0].0, mail[0].1);
    assert mail[1..][..i - 1] == mail[1..i];
    assert Arrivals(ses, mail[..i]) == [e] + Arrivals(ses, mail[1..i]);
    AfterFirst(cfg, s, e, Arrivals(ses, mail[1..i]));
  }

  /** t and replies are what becomes of this mail: a prefix of it is handled, each envelope is answered in
      the state its predecessors left, and the loop stops early only after a handler that raised. */
  ghost predicate Answered(cfg: Config, s: State, ses: Session, mail: seq<(Envelope, Ambient)>, t: State, replies: seq<Reply>) {
    && |replies| <= |mail|
    && t == After(cfg, s, Arrivals(ses, mail[..|replies|]))
    && (forall i | 0 <= i < |replies| :: replies[i] == ReplyAt(cfg, s, ses, mail, i))
    && (forall i | 0 <= i < |replies| - 1 :: !replies[i].Dropped?)
    && (|replies| < |mail| ==> replies != [] && replies[|replies| - 1].Dropped?)
  }

  lemma FirstReply(cfg: Config, s: State, ses: Session, mail: seq<(Envelope, Ambient)>)
    requires mail != []
    ensures ReplyAt(cfg, s, ses, mail, 0) == Handle(cfg, s, ses, mail[0].0, mail[0].1).reply
    ensures After(cfg, s, Arrivals(ses, mail[..1])) == Handle(cfg, s, ses, mail[0].0, mail[0].1).state
  {
    hide Handle;
    assert Arrivals(ses, mail[..0]) == [];
    assert Arrivals(ses, mail[..1]) == [Arrive(ses, mail[0].0, mail[0].1)];
    assert Arrivals(ses, mail[..1])[..0] == [];
  }

  lemma AnsweredMore(cfg: Config, s: State, ses: Session, mail: seq<(Envelope, Ambient)>, t: State, rest: seq<Reply>)
    requires mail != []
    requires var o := Handle(cfg, s, ses, mail[0].0, mail[0].1);
             !o.reply.Dropped? && Answered(cfg, o.state, ses, mail[1..], t, rest)
    ensures Answered(cfg, s, ses, mail, t, [Handle(cfg, s, ses, mail[0].0, mail[0].1).reply] + rest)
  {
    hide Handle, After, ReplyAt;
    var o, e := Handle(cfg, s, ses, mail[0].0, mail[0].1), Arrive(ses, mail[0].0, mail[0].1);
    var replies := [o.reply] + rest;
    var n := |replies|;
    assert mail[1..][..n - 1] == mail[1..n];
    assert Arrivals(ses, mail[..n]) == [e] + Arrivals(ses, mail[1..n]);
    AfterFirst(cfg, s, e, Arrivals(ses, mail[1..n]));
    FirstReply(cfg, s, ses, mail);
    forall i | 0 < i < n
      ensures replies[i] == ReplyAt(cfg, s, ses, mail, i)
    {
      ReplyAtTail(cfg, s, ses, mail, i);
    }
  }

  /** The connection loop answers all its mail in order; in particular an ERROR reply keeps the
      connection open. */
  lemma {:induction false} ServeAnswersAll(cfg: Config, s: State, ses: Session, mail: seq<(Envelope, Ambient)>)
    ensures Answered(cfg, s, ses, mail, Serve(cfg, s, ses, mail).0, Serve(cfg, s, ses, mail).1)
    decreases mail
  {
    if mail == [] {
      assert Arrivals(ses, mail[..0]) == [];
    } else {
      hide Handle, Answered;
      var o := Handle(cfg, s, ses, mail[0].0, mail[0].1);
      if o.reply.Dropped? {
        DroppedAtOnce(cfg, s, ses, mail);
      } else {
        ServeAnswersAll(cfg, o.state, ses, mail[1..]);
        AnsweredMore(cfg, s, ses, mail, Serve(cfg, o.state, ses, mail[1..]).0, Serve(cfg, o.state, ses, mail[1..]).1);
      }
    }
  }

  lemma DroppedAtOnce(cfg: Config, s: State, ses: Session, mail: seq<(Envelope, Ambient)>)
    requires mail != [] && Handle(cfg, s, ses, mail[0].0, mail[0].1).reply == Dropped
    ensures Answered(cfg, s, ses, mail, Handle(cfg, s, ses, mail[0].0, mail[0].1).state, [Dropped])
  {
    FirstReply(cfg, s, ses, mail);
    hide Handle, After, ReplyAt;
  }

  /** The cleanup loop goes through all its ticks, failing passes included. */
  lemma {:induction false} PassesRunAll(cfg: Config, s: State, ticks: seq<Tick>)
    ensures Passes(s, ticks) == After(cfg, s, Cleanups(ticks))
    decreases ticks
  {
    if ticks != [] {
      var e := Cleanup(ticks[0]);
      PassesRunAll(cfg, CleanupPass(s, ticks[0]), ticks[1..]);
      assert Cleanups(ticks) == [e] + Cleanups(ticks[1..]);
      AfterFirst(cfg, s, e, Cleanups(ticks[1..]));
    } else {
      assert Cleanups(ticks) == [];
    }
  }

  /** A failed pass changes nothing beyond its purge, and the loop carries on with the next one. */
  lemma FailedPassIsSkipped(s: State, t: Tick, later: seq<Tick>)
    requires !t.purgeOk
    ensures Passes(s, [t] + later) == Passes(s, later)
  {
    assert ([t] + later)[1..] == later;
  }
}
