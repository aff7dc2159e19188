/** One message through a upipe from end to end, and one wait, with nothing in between: what each end does
    when its steps are taken together. */
module UpipeWhole {
  import opened Lists
  import opened UpipeRing
  import Upipe
  import opened UpipeSleep

  /** One end's steps in a row. */
  function Alone(s: State, ops: seq<Op>): State
    decreases |ops|
  {
    if ops == [] || !Sane(s.ring) then s else Alone(Apply(s, ops[0]), ops[1..])
  }

  lemma OneByOne(s: State, ops: seq<Op>, a: Op, rest: seq<Op>)
    requires ops == [a] + rest && Sane(s.ring)
    ensures Alone(s, ops) == Alone(Apply(s, a), rest)
  {
    assert ops[1..] == rest;
  }

  function Writing(x: Upipe.Slot): seq<Op> { [P(Begin), P(Touch(x)), P(Bump), P(Check), P(Kick)] }

  function Reading(): seq<Op> { [C(Begin), C(Touch([])), C(Bump), C(Check), C(Kick)] }

  /** What a kick does to the other end: wake it if it is parked, else leave it a token; without a raised
      flag there is none. */
  predicate Kicked(was: End, now: End, flag: bool, wasToken: bool, token: bool) {
    if !flag then now == was && token == wasToken
    else if was.Parked? then now.Leaving? && token == wasToken
    else now == was && token
  }

  /** One message more was committed; one message more was read, the oldest. */
  ghost predicate Sent(r: Ring, c: Ring, x: Upipe.Slot) {
    c.sent == r.sent + [x] && c.wrote == r.wrote + 1 && c.got == r.got && c.read == r.read && c.exp == r.exp
  }

  ghost predicate Taken(r: Ring, c: Ring) {
    && r.read < |r.sent| && c.got == r.got + [r.sent[r.read]] && c.read == r.read + 1
    && c.sent == r.sent && c.wrote == r.wrote && c.exp == r.exp
  }

  lemma SaneInv(s: State)
    requires Inv(s)
    ensures Sane(s.ring)
  {
  }

  lemma Then(s: State, a: Op, rest: seq<Op>)
    requires Inv(s)
    ensures Sane(s.ring) && Inv(Apply(s, a)) && Alone(s, [a] + rest) == Alone(Apply(s, a), rest)
    ensures rest == [] ==> Alone(s, [a]) == Apply(s, a)
  {
    SaneInv(s);
    StepInv(s, a);
    hide Apply, Inv;
    OneByOne(s, [a] + rest, a, rest);
    if rest == [] { OneByOne(s, [a], a, []); }
  }

  lemma Three(s: State, a: Op, b: Op, c: Op, rest: seq<Op>)
    requires Inv(s)
    ensures Sane(s.ring) && Sane(Apply(s, a).ring) && Sane(Apply(Apply(s, a), b).ring)
    ensures var r := Apply(Apply(Apply(s, a), b), c); Inv(r) && Sane(r.ring) && Alone(s, [a, b, c] + rest) == Alone(r, rest)
  {
    hide Apply, Inv;
    Then(s, a, [b, c] + rest);
    assert [a, b, c] + rest == [a] + ([b, c] + rest);
    var s1 := Apply(s, a);
    Then(s1, b, [c] + rest);
    assert [b, c] + rest == [b] + ([c] + rest);
    var s2 := Apply(s1, b);
    Then(s2, c, rest);
    SaneInv(Apply(s2, c));
  }

  lemma Two(s: State, a: Op, b: Op)
    requires Inv(s)
    ensures Sane(s.ring) && Sane(Apply(s, a).ring)
    ensures var r := Apply(Apply(s, a), b); Inv(r) && Alone(s, [a, b]) == r
  {
    hide Apply, Inv;
    Then(s, a, [b]);
    assert [a] + [b] == [a, b];
    Then(Apply(s, a), b, []);
    SaneInv(Apply(s, a));
  }

  lemma Appended(r: Ring, x: Upipe.Slot)
    requires RingLaw(r)
    ensures Sane(r) && Sane(Fill(r, x))
    ensures Sent(r, Commit(Fill(r, x)), x)
  {
    hide And, Pow2, RingLaw;
    Tests(r);
    FillFacts(r, x);
  }

  /** Up to the index bump. */
  lemma WroteIt(s: State, x: Upipe.Slot)
    requires Inv(s) && s.prod.Idle?
    ensures Sane(s.ring) && Sane(Apply(s, P(Begin)).ring) && Sane(Apply(Apply(s, P(Begin)), P(Touch(x))).ring)
    ensures var r := Apply(Apply(Apply(s, P(Begin)), P(Touch(x))), P(Bump));
      && (s.ring.wrote == s.ring.read + N(s.ring) ==> r == s)
      && (s.ring.wrote != s.ring.read + N(s.ring) ==> Sent(s.ring, r.ring, x) && r == s.(ring := r.ring, prod := Bumped))
  {
    Three(s, P(Begin), P(Touch(x)), P(Bump), []);
    Tests(s.ring);
    Appended(s.ring, x);
    hide RingLaw, UseLaw, SleepLaw, And, Pow2, Full, Fill, Commit;
  }

  lemma Kicks(s: State)
    requires Inv(s) && (s.prod.Bumped? || s.prod.Idle?)
    ensures Sane(s.ring) && Sane(Apply(s, P(Check)).ring)
    ensures var r := Apply(Apply(s, P(Check)), P(Kick));
      if s.prod.Idle? then r == s else r == s.(prod := Idle, cons := r.cons, tokenR := r.tokenR) && Kicked(s.cons, r.cons, s.flagR, s.tokenR, r.tokenR)
  {
    Two(s, P(Check), P(Kick));
    hide RingLaw, UseLaw, SleepLaw, And, Pow2, Full, Fill, Commit;
  }

  /** A write without anybody in between takes a slot exactly when fewer than n are in use, and then its
      message is the newest; a peer that has gone to sleep is woken, one about to will find the token. */
  lemma {:induction false} WritesOne(s: State, x: Upipe.Slot)
    requires Inv(s) && s.prod.Idle?
    ensures var r := Alone(s, Writing(x));
      && (s.ring.wrote == s.ring.read + N(s.ring) ==> r == s)
      && (s.ring.wrote != s.ring.read + N(s.ring) ==>
            && Sent(s.ring, r.ring, x) && r == s.(ring := r.ring, cons := r.cons, tokenR := r.tokenR)
            && Kicked(s.cons, r.cons, s.flagR, s.tokenR, r.tokenR))
  {
    WroteIt(s, x);
    Three(s, P(Begin), P(Touch(x)), P(Bump), [P(Check), P(Kick)]);
    assert Writing(x) == [P(Begin), P(Touch(x)), P(Bump)] + [P(Check), P(Kick)];
    hide Apply, Inv;
    var m := Apply(Apply(Apply(s, P(Begin)), P(Touch(x))), P(Bump));
    Kicks(m);
    Two(m, P(Check), P(Kick));
  }

  lemma ReadIt(s: State)
    requires Inv(s) && s.cons.Idle?
    ensures Sane(s.ring) && Sane(Apply(s, C(Begin)).ring) && Sane(Apply(Apply(s, C(Begin)), C(Touch([]))).ring)
    ensures var r := Apply(Apply(Apply(s, C(Begin)), C(Touch([]))), C(Bump));
      && (s.ring.wrote == s.ring.read ==> r == s)
      && (s.ring.wrote != s.ring.read ==> Taken(s.ring, r.ring) && r == s.(ring := r.ring, cons := Bumped, look := r.look))
  {
    Three(s, C(Begin), C(Touch([])), C(Bump), []);
    Tests(s.ring);
    hide RingLaw, UseLaw, SleepLaw, And, Pow2, Full, At;
  }

  lemma KicksBack(s: State)
    requires Inv(s) && (s.cons.Bumped? || s.cons.Idle?)
    ensures Sane(s.ring) && Sane(Apply(s, C(Check)).ring)
    ensures var r := Apply(Apply(s, C(Check)), C(Kick));
      if s.cons.Idle? then r == s else r == s.(cons := Idle, prod := r.prod, tokenW := r.tokenW) && Kicked(s.prod, r.prod, s.flagW, s.tokenW, r.tokenW)
  {
    Two(s, C(Check), C(Kick));
    hide RingLaw, UseLaw, SleepLaw, And, Pow2, Full;
  }

  /** A read without anybody in between gets the oldest message exactly when there is one. */
  lemma {:induction false} ReadsOne(s: State)
    requires Inv(s) && s.cons.Idle?
    ensures var r := Alone(s, Reading());
      && (s.ring.wrote == s.ring.read ==> r == s)
      && (s.ring.wrote != s.ring.read ==>
            && Taken(s.ring, r.ring) && r == s.(ring := r.ring, prod := r.prod, tokenW := r.tokenW, look := r.look)
            && Kicked(s.prod, r.prod, s.flagW, s.tokenW, r.tokenW))
  {
    ReadIt(s);
    Three(s, C(Begin), C(Touch([])), C(Bump), [C(Check), C(Kick)]);
    assert Reading() == [C(Begin), C(Touch([])), C(Bump)] + [C(Check), C(Kick)];
    hide Apply, Inv;
    var m := Apply(Apply(Apply(s, C(Begin)), C(Touch([]))), C(Bump));
    KicksBack(m);
    Two(m, C(Check), C(Kick));
  }

  // --- A wait -------------------------------------------------------------------------------------------

  /** An end that waits with nobody in between parks exactly when there is nothing for it to do and no
      token; a token it uses up; otherwise it is back with its flag down. */
  lemma {:induction false} WriterParks(s: State)
    requires Inv(s) && s.prod.Idle?
    ensures var r := Alone(s, [P(Raise), P(Recheck), P(Ask), P(Take), P(Lower)]);
      if s.ring.wrote == s.ring.read + N(s.ring) && !s.tokenW then r == s.(prod := Parked, flagW := true)
      else r == s.(flagW := false, tokenW := s.tokenW && s.ring.wrote < s.ring.read + N(s.ring))
  {
    Three(s, P(Raise), P(Recheck), P(Ask), [P(Take), P(Lower)]);
    assert [P(Raise), P(Recheck), P(Ask), P(Take), P(Lower)] == [P(Raise), P(Recheck), P(Ask)] + [P(Take), P(Lower)];
    Two(Apply(Apply(Apply(s, P(Raise)), P(Recheck)), P(Ask)), P(Take), P(Lower));
    Tests(s.ring);
    hide RingLaw, UseLaw, SleepLaw, And, Pow2, Full;
  }

  lemma {:induction false} ReaderParks(s: State)
    requires Inv(s) && s.cons.Idle?
    ensures var r := Alone(s, [C(Raise), C(Recheck), C(Ask), C(Take), C(Lower)]);
      if s.ring.wrote == s.ring.read && !s.tokenR then r == s.(cons := Parked, flagR := true)
      else r == s.(flagR := false, tokenR := s.tokenR && s.ring.wrote != s.ring.read)
  {
    Three(s, C(Raise), C(Recheck), C(Ask), [C(Take), C(Lower)]);
    assert [C(Raise), C(Recheck), C(Ask), C(Take), C(Lower)] == [C(Raise), C(Recheck), C(Ask)] + [C(Take), C(Lower)];
    Two(Apply(Apply(Apply(s, C(Raise)), C(Recheck)), C(Ask)), C(Take), C(Lower));
    Tests(s.ring);
    hide RingLaw, UseLaw, SleepLaw, And, Pow2, Full;
  }
}
