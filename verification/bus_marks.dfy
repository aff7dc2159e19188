/** The `used` marks: since every block is in exactly one place, a block's mark tells where it is. */
module BusMarks {
  import opened BusState
  import opened BusOps
  import opened BusLoans
  import opened BusRep
  import opened BusReaderRep

  lemma {:induction false} SomeTopic(ts: seq<Topic>, b: Block) returns (t: nat)
    requires InTopics(ts, b) > 0
    ensures t < |ts| && InTopic(ts[t], b) > 0
  {
    if InTopic(ts[0], b) > 0 { t := 0; } else { t := SomeTopic(ts[1..], b); t := t + 1; }
  }

  lemma {:induction false} SomeMsg(q: seq<Msg>, b: Block) returns (i: nat)
    requires InQueue(q, b) > 0
    ensures i < |q| && b in q[i].chain
  {
    if Occurs(q[0].chain, b) > 0 { i := 0; } else { i := SomeMsg(q[1..], b); i := i + 1; }
  }

  lemma ChainMark(desc: seq<Desc>, l: seq<Block>, used: nat, b: Block)
    requires Chained(desc, l, used) && b in l
    ensures b < |desc| && desc[b].used == used
  {
    var i :| 0 <= i < |l| && l[i] == b;
    assert l[i] < |desc|;
  }

  /** A block of a topic is not marked free, and only a ticket is marked reserved. */
  lemma TopicMark(desc: seq<Desc>, size: nat, r: Rec, x: Topic, b: Block)
    requires TopicRep(desc, size, r, x) && InTopic(x, b) > 0
    ensures b < |desc| && desc[b].used != FREE && (desc[b].used == RESERVED ==> b in x.tickets && b in x.loose)
  {
    hide Chained, EndsRep, SubsRep, PipeRep;
    if Occurs(x.stash, b) > 0 {
      ChainMark(desc, x.stash, STASHED, b);
    } else if InQueue(x.queue, b) > 0 {
      var i := SomeMsg(x.queue, b);
      assert MsgRep(desc, size, x.queue, i);
      ChainMark(desc, x.queue[i].chain, IN_USE, b);
    } else if b in x.loose {
    } else {
      assert b in x.ring;
      var i :| 0 <= i < |x.ring| && x.ring[i] == b;
      assert x.ring[i] < |desc|;
    }
  }

  ghost predicate Ticket(s: State, b: Block) {
    exists t :: 0 <= t < |s.topics| && b in s.topics[t].tickets
  }

  lemma Marks(c: Mem, s: State, b: Block)
    requires Rep(c, s) && Books(s) && b < |c.desc|
    ensures c.desc[b].used == FREE <==> b in s.pool
    ensures c.desc[b].used == RESERVED <==> Ticket(s, b)
  {
    hide TopicRep, TopicBooks, Chained;
    assert Places(s, b) == 1;
    if b in s.pool {
      ChainMark(c.desc, s.pool, FREE, b);
      PoolApart(s, b);
      forall t | 0 <= t < |s.topics| ensures b !in s.topics[t].tickets {
        TicketIsLoose(s, t);
        assert InTopic(s.topics[t], b) == 0;
      }
    } else {
      assert Occurs(s.pool, b) == 0;
      var t := SomeTopic(s.topics, b);
      RepOf(c, s, t);
      TopicMark(c.desc, c.blockSize, c.topics[t], s.topics[t], b);
      if Ticket(s, b) {
        var u :| 0 <= u < |s.topics| && b in s.topics[u].tickets;
        RepOf(c, s, u);
        TicketMark(c, s, u, b);
      }
    }
  }

  lemma TicketIsLoose(s: State, t: nat)
    requires Books(s) && t < |s.topics|
    ensures s.topics[t].tickets <= s.topics[t].loose
  {
  }

  lemma TicketMark(c: Mem, s: State, t: nat, b: Block)
    requires Rep(c, s) && Books(s) && t < |s.topics| && b in s.topics[t].tickets
    ensures b < |c.desc| && c.desc[b].used == RESERVED && b in s.topics[t].loose
  {
    hide Chained, QueueRep, EndsRep, SubsRep, PipeRep, RingRep, FieldsRep, OnePlace;
    TicketIsLoose(s, t);
    RepOf(c, s, t);
    assert LooseRep(c.desc, s.topics[t]);
  }
}
