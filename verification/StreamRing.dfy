/** src/stream_ring.h: the ISR's next() against a producer that claims, writes sample by sample
    and publishes, in every interleaving of their steps; and src/waveform.cpp, the producer that
    plays a file through it. */
module StreamRing {

  const REFILL_REQUESTED := 0x1_0000
  const FILLING := 0x2_0000

  /** The valid-sample count a state word carries. */
  function Count(word: nat): nat {
    word % 0x1_0000
  }

  predicate StateWord(word: nat) {
    word < 0x1_0000 || word == REFILL_REQUESTED || word == FILLING
  }

  lemma Counts(n: nat)
    ensures Count(REFILL_REQUESTED) == Count(FILLING) == 0
    ensures n < 0x1_0000 ==> Count(n) == n
    ensures StateWord(n) && Count(n) > 0 ==> n < 0x1_0000
    ensures StateWord(n) && Count(n) == 0 ==> n == 0 || n == REFILL_REQUESTED || n == FILLING
  {
  }

  function Flatten(batches: seq<seq<int>>): seq<int> {
    if batches == [] then [] else Flatten(batches[..|batches| - 1]) + batches[|batches| - 1]
  }

  lemma FlattenNext(batches: seq<seq<int>>, batch: seq<int>)
    ensures Flatten(batches + [batch]) == Flatten(batches) + batch
  {
    assert (batches + [batch])[..|batches|] == batches;
  }

  lemma {:induction false} FlattenMore(batches: seq<seq<int>>, more: seq<seq<int>>)
    ensures Flatten(batches) <= Flatten(batches + more)
  {
    if more == [] {
      assert batches + more == batches;
    } else {
      var rest := more[..|more| - 1];
      FlattenMore(batches, rest);
      assert batches + more == (batches + rest) + [more[|more| - 1]];
      FlattenNext(batches + rest, more[|more| - 1]);
    }
  }

  /** A word that fits its buffer. */
  ghost predicate Slot(w: nat, b: seq<int>) {
    StateWord(w) && Count(w) <= |b|
  }

  ghost function BatchOf(w: nat, b: seq<int>): seq<int>
    requires Count(w) <= |b|
  {
    b[..Count(w)]
  }

  /** The batch a slot holds, if any. */
  ghost function Held(w: nat, b: seq<int>): (h: seq<seq<int>>)
    requires Count(w) <= |b|
    ensures |h| <= 1
  {
    if Count(w) == 0 then [] else [BatchOf(w, b)]
  }

  /** What has been read is the batches handed back, whole, and the active batch up to the index. */
  ghost predicate InOrder(w: nat, b: seq<int>, index: nat, handed: seq<seq<int>>, delivered: seq<int>) {
    Slot(w, b) && index <= Count(w) && delivered == Flatten(handed) + BatchOf(w, b)[..index]
  }

  /** Every batch published has been handed back once or is still held by a buffer. */
  ghost predicate Conserved(h0: seq<seq<int>>, h1: seq<seq<int>>, handed: seq<seq<int>>, order: seq<seq<int>>) {
    multiset(order) == multiset(handed) + multiset(h0) + multiset(h1)
  }

  /** The batches in the order the consumer gets them, buffer `turn` being the next it reads. */
  ghost function Queue(h0: seq<seq<int>>, h1: seq<seq<int>>, turn: nat, handed: seq<seq<int>>): seq<seq<int>> {
    handed + if turn == 0 then h0 + h1 else h1 + h0
  }

  /** What a starved call leaves of a word: everything requested but what is being filled. */
  function Requested(w: nat): nat {
    if w == FILLING then FILLING else REFILL_REQUESTED
  }

  lemma HeldIsBatch(w: nat, b: seq<int>)
    requires Slot(w, b)
    ensures Held(w, b) == if Count(w) == 0 then [] else [BatchOf(w, b)]
  {
  }

  /** Claiming, requesting and writing touch nothing that is published. */
  lemma Unpublished(w: nat, b: seq<int>, w': nat, b': seq<int>)
    requires Slot(w, b) && StateWord(w') && |b'| == |b| && Count(w) == Count(w') == 0
    ensures Slot(w', b') && Held(w', b') == Held(w, b) == []
    ensures forall i: nat, h, d :: InOrder(w, b, i, h, d) ==> InOrder(w', b', i, h, d)
  {
    forall i: nat, h, d | InOrder(w, b, i, h, d) ensures InOrder(w', b', i, h, d) {
      assert BatchOf(w', b')[..0] == BatchOf(w, b)[..0];
    }
  }

  /** A claimed buffer published with its first n samples. */
  lemma Publish(n: nat, b: seq<int>)
    requires Slot(FILLING, b) && n <= |b| && n < 0x1_0000
    ensures Slot(n, b) && Held(n, b) == if n == 0 then [] else [b[..n]]
    ensures Held(FILLING, b) == []
    ensures forall i: nat, h, d :: InOrder(FILLING, b, i, h, d) ==> InOrder(n, b, i, h, d)
  {
    forall i: nat, h, d | InOrder(FILLING, b, i, h, d) ensures InOrder(n, b, i, h, d) {
      assert BatchOf(n, b)[..0] == BatchOf(FILLING, b)[..0];
    }
  }

  /** Publishing into the buffer that is not next appends to both orders. */
  lemma PublishBehind(handed: seq<seq<int>>, next: seq<seq<int>>, batch: seq<int>, order: seq<seq<int>>)
    ensures order + [batch] == handed + (next + [batch]) <==> order == handed + next
    ensures multiset(order + [batch]) == multiset(order) + multiset([batch])
  {
    assert handed + (next + [batch]) == (handed + next) + [batch];
    if order + [batch] == (handed + next) + [batch] {
      assert order == (order + [batch])[..|order|] == handed + next;
    }
  }

  /** Publishing into the next buffer overtakes the other one, unless that is empty or equal. */
  lemma PublishBefore(handed: seq<seq<int>>, other: seq<seq<int>>, batch: seq<int>, order: seq<seq<int>>)
    requires |other| <= 1
    ensures order + [batch] == handed + ([batch] + other) <==>
              order == handed + other && (other == [] || other == [batch])
    ensures multiset(order + [batch]) == multiset(order) + multiset([batch])
  {
    if other == [] {
      PublishBehind(handed, [], batch, order);
      assert [batch] + other == [] + [batch];
    } else {
      PublishBehind(handed, [batch], other[0], order);
      assert [batch] + other == [batch] + [other[0]];
      if order + [batch] == handed + ([batch] + other) {
        assert (order + [batch])[|order|] == (handed + ([batch] + other))[|handed| + 1];
      }
    }
  }

  /** A batch published into empty buffer k keeps the two orders equal exactly when it overtakes no other. */
  lemma PublishInTurn(h0: seq<seq<int>>, h1: seq<seq<int>>, g0: seq<seq<int>>, g1: seq<seq<int>>,
                      k: nat, turn: nat, batch: seq<int>,
                      handed: seq<seq<int>>, order: seq<seq<int>>)
    requires k < 2 && turn < 2 && |h0| <= 1 && |h1| <= 1
    requires if k == 0 then h0 == [] && g0 == [batch] && g1 == h1 else h1 == [] && g1 == [batch] && g0 == h0
    ensures Conserved(h0, h1, handed, order) ==> Conserved(g0, g1, handed, order + [batch])
    ensures var other := if k == 0 then h1 else h0;
            Queue(g0, g1, turn, handed) == order + [batch] <==>
              Queue(h0, h1, turn, handed) == order && (k != turn || other == [] || other == [batch])
  {
    var other := if k == 0 then h1 else h0;
    assert [] + other == other + [] == other;
    if k == turn {
      PublishBefore(handed, other, batch, order);
    } else {
      PublishBehind(handed, other, batch, order);
    }
  }

  /** Handing back takes the head of what is held: every batch is delivered once, in its place. */
  lemma TakeBack(h0: seq<seq<int>>, h1: seq<seq<int>>, k: nat, batch: seq<int>, handed: seq<seq<int>>,
                 order: seq<seq<int>>)
    requires k < 2 && Conserved(h0, h1, handed, order) && (if k == 0 then h0 else h1) == [batch]
    ensures var g0, g1 := if k == 0 then [] else h0, if k == 0 then h1 else [];
            && Conserved(g0, g1, handed + [batch], order)
            && Queue(g0, g1, 1 - k, handed + [batch]) == Queue(h0, h1, k, handed)
  {
    var other := if k == 0 then h1 else h0;
    assert multiset(handed + [batch]) == multiset(handed) + multiset([batch]);
    assert (handed + [batch]) + (other + []) == handed + ([batch] + other);
    assert [] + other == other + [];
  }

  /** An empty buffer may be passed over. */
  lemma PassOver(h0: seq<seq<int>>, h1: seq<seq<int>>, turn: nat, handed: seq<seq<int>>)
    requires turn < 2 && (if turn == 0 then h0 else h1) == []
    ensures Queue(h0, h1, 1 - turn, handed) == Queue(h0, h1, turn, handed)
  {
    assert h0 + h1 == h1 + h0;
  }

  /** Read to its end, a batch has been delivered whole, and the other buffer starts at 0. */
  lemma WholeBatch(w: nat, b: seq<int>, index: nat, handed: seq<seq<int>>, delivered: seq<int>, w': nat, b': seq<int>)
    requires InOrder(w, b, index, handed, delivered) && index == Count(w) && Slot(w', b')
    ensures InOrder(w', b', 0, handed + [BatchOf(w, b)], delivered)
  {
    hide Count;
    FlattenNext(handed, BatchOf(w, b));
  }

  class StreamRing {
    var word: seq<nat>         // published[2]
    var active: nat
    var index: nat
    var lastSample: int
    var underruns: nat
    var buffers: seq<seq<int>> // the caller's two buffers

    var alone: bool            // the environment's choice: the producer does not run during this call

    ghost var order: seq<seq<int>>   // the batches in the order they were published
    ghost var handed: seq<seq<int>>  // the batches handed back, in order
    ghost var delivered: seq<int>    // the samples read, in order
    /** The buffer read next: during a call, the other one once the active one was seen empty. */
    ghost var turn: nat
    ghost var inTurn: bool           // no publication has overtaken another one

    /** What buffer k has published and not taken back. */
    ghost function Batch(k: nat): seq<int>
      requires k < |word| && k < |buffers| && Count(word[k]) <= |buffers[k]|
      reads `word, `buffers
    {
      BatchOf(word[k], buffers[k])
    }

    ghost predicate Shape()
      reads `word, `buffers
    {
      |word| == |buffers| == 2 && Slot(word[0], buffers[0]) && Slot(word[1], buffers[1])
    }

    ghost function HeldBy(k: nat): (h: seq<seq<int>>)
      requires Shape() && k < 2
      reads `word, `buffers
      ensures |h| <= 1
    {
      Held(word[k], buffers[k])
    }

    /** Holds between any two steps of either side. */
    ghost predicate Valid()
      reads this
    {
      && Shape() && active < 2 && turn < 2
      && InOrder(word[active], buffers[active], index, handed, delivered)
      && Conserved(HeldBy(0), HeldBy(1), handed, order)
      && (inTurn <==> Queue(HeldBy(0), HeldBy(1), turn, handed) == order)
    }

    /** Nothing to read in the buffer read next means nothing at all. */
    ghost predicate Settled()
      requires Valid()
      reads this
    {
      HeldBy(turn) == [] ==> HeldBy(1 - turn) == []
    }

    /** Publishing n samples of buffer k puts them before a different batch published earlier. */
    ghost predicate Overtakes(k: nat, n: nat)
      requires Valid() && k < 2 && n <= |buffers[k]|
      reads this
    {
      n > 0 && k == turn && HeldBy(1 - k) != [] && HeldBy(1 - k) != [buffers[k][..n]]
    }

    /** Samples of buffer k published and not read yet. */
    ghost predicate Unread(k: nat)
      requires Valid() && k < 2
      reads this
    {
      Count(word[k]) > if k == active then index else 0
    }

    constructor (buffers: seq<seq<int>>)
      requires |buffers| == 2
      ensures Valid() && !Unread(0) && !Unread(1) && delivered == [] && order == [] && inTurn
      ensures active == turn == 0 && word == [0, 0] && this.buffers == buffers && index == 0 && alone
    {
      word, active, index, lastSample, underruns := [0, 0], 0, 0, 0, 0;
      this.buffers := buffers;
      order, handed, delivered := [], [], [];
      turn, inTurn, alone := 0, true, true;
    }

    // ------------------------------------------------------------------- the producer

    /** beginRefill(): the compare-and-swap. */
    method BeginRefill(k: nat) returns (claimed: bool)
      requires Valid() && k < 2
      modifies `word
      ensures Valid() && claimed == (old(word[k]) == REFILL_REQUESTED) && Settled() == old(Settled())
      ensures word == if claimed then old(word)[k := FILLING] else old(word)
    {
      hide Count, InOrder, Held, Conserved, Queue;
      Counts(0);
      claimed := word[k] == REFILL_REQUESTED;
      if claimed {
        Unpublished(word[k], buffers[k], FILLING, buffers[k]);
        word := word[k := FILLING];
      }
    }

    /** One sample into a claimed buffer. */
    method Write(k: nat, i: nat, v: int)
      requires Valid() && k < 2 && word[k] == FILLING && i < |buffers[k]|
      modifies `buffers
      ensures Valid() && buffers == old(buffers)[k := old(buffers)[k][i := v]] && Settled() == old(Settled())
    {
      hide Count, InOrder, Held, Conserved, Queue;
      Counts(0);
      Unpublished(FILLING, buffers[k], FILLING, buffers[k][i := v]);
      buffers := buffers[k := buffers[k][i := v]];
    }

    /** markFilled(): in turn exactly when it overtakes nothing. */
    method MarkFilled(k: nat, n: nat)
      requires Valid() && k < 2 && word[k] == FILLING && n <= |buffers[k]| && n < 0x1_0000
      modifies `word, `order, `inTurn
      ensures Valid() && word == old(word)[k := n]
      ensures order == old(order) + if n == 0 then [] else [buffers[k][..n]]
      ensures inTurn == old(inTurn && !Overtakes(k, n))
      ensures old(Settled()) && old(inTurn) ==> inTurn
    {
      hide Count, InOrder, Held, Conserved, Queue, Settled;
      Counts(0);
      Publish(n, buffers[k]);
      SettledIsSafe(k, n);
      ghost var h0, h1 := HeldBy(0), HeldBy(1);
      inTurn := inTurn && !Overtakes(k, n);
      word := word[k := n];
      if n > 0 {
        PublishInTurn(h0, h1, HeldBy(0), HeldBy(1), k, turn, buffers[k][..n], handed, order);
        order := order + [buffers[k][..n]];
      }
    }

    lemma SettledIsSafe(k: nat, n: nat)
      requires Valid() && k < 2 && word[k] == FILLING && n <= |buffers[k]|
      ensures Settled() ==> !Overtakes(k, n)
    {
    }

    /** What the producer can do to the consumer: nothing to what is published or idle. */
    twostate predicate ProducerOnly()
      reads this
    {
      ProducerOnlyButTurn() && turn == old(turn)
    }

    twostate predicate ProducerOnlyButTurn()
      reads this
    {
      && active == old(active) && index == old(index) && lastSample == old(lastSample) && underruns == old(underruns)
      && handed == old(handed) && delivered == old(delivered) && alone == old(alone) && old(order) <= order
      && (alone ==> word == old(word) && buffers == old(buffers) && order == old(order) && inTurn == old(inTurn))
      && |word| == |old(word)| == |buffers| == |old(buffers)| == 2 && Untouched(0) && Untouched(1)
    }

    twostate predicate Untouched(k: nat)
      requires k < 2 && |word| == |old(word)| == |buffers| == |old(buffers)| == 2
      reads this
    {
      && (old(word[k]) < 0x1_0000 ==> word[k] == old(word[k]) && buffers[k] == old(buffers)[k])
      && (order == old(order) ==> Count(word[k]) == Count(old(word)[k]))
    }

    /** Any producer steps, on either buffer. */
    method Interfere()
      requires Valid()
      modifies this
      ensures Valid() && ProducerOnly()
    {
      var n: nat :| alone ==> n == 0;
      while n > 0
        invariant Valid() && ProducerOnly() && (alone ==> n == 0)
      {
        ProducerStep();
        n := n - 1;
      }
    }

    lemma SlotsAreWords()
      requires Valid()
      ensures forall k :: 0 <= k < 2 ==> Slot(word[k], buffers[k])
    {
    }

    method ProducerStep()
      requires Valid() && !alone
      modifies this
      ensures Valid() && ProducerOnly()
    {
      hide Count, InOrder, Conserved, Queue, Overtakes, Settled;
      Counts(0);
      SlotsAreWords();
      var k: nat :| k < 2;
      var i: nat, v: int := *, *;
      var claims: bool, writes: bool := *, *;
      if claims {
        var _ := BeginRefill(k);
      } else if word[k] == FILLING {
        if writes && i < |buffers[k]| {
          Write(k, i, v);
        } else if !writes && i <= |buffers[k]| && i < 0x1_0000 {
          MarkFilled(k, i);
        }
      }
    }

    // ------------------------------------------------------------------- the consumer

    /** The exhausted buffer handed back, the other one active.  `active` and `index` are the
        consumer's own, so nothing can be seen between the three stores. */
    method HandBack()
      requires Valid() && Count(word[active]) > 0 && index == Count(word[active]) && turn == active
      requires Slot(word[0], buffers[0]) && Slot(word[1], buffers[1])
      modifies `word, `active, `index, `handed, `turn
      ensures Valid() && active == turn == 1 - old(active) && index == 0
      ensures word == old(word)[old(active) := REFILL_REQUESTED]
      ensures handed == old(handed) + [old(Batch(active))]
    {
      hide Count, Conserved, InOrder, Held, Queue, Flatten;
      Counts(0);
      HeldIsBatch(word[active], buffers[active]);
      Unpublished(REFILL_REQUESTED, buffers[active], REFILL_REQUESTED, buffers[active]);
      TakeBack(HeldBy(0), HeldBy(1), active, Batch(active), handed, order);
      WholeBatch(word[active], buffers[active], index, handed, delivered, word[1 - active], buffers[1 - active]);
      handed := handed + [Batch(active)];
      word := word[active := REFILL_REQUESTED];
      active, index, turn := 1 - active, 0, 1 - active;
    }

    /** The compare-and-swap that requests an idle buffer, never one being filled. */
    method RequestIfIdle(k: nat)
      requires Valid() && k < 2
      modifies `word
      ensures Valid() && word == if old(word[k]) == 0 then old(word)[k := REFILL_REQUESTED] else old(word)
    {
      hide Count, InOrder, Held, Conserved, Queue;
      Counts(0);
      if word[k] == 0 {
        Unpublished(0, buffers[k], REFILL_REQUESTED, buffers[k]);
        word := word[k := REFILL_REQUESTED];
      }
    }

    /** buffers[active][index++]: only ever of a published buffer. */
    method Take() returns (sample: int)
      requires Valid() && index < Count(word[active])
      modifies `index, `lastSample, `delivered
      ensures Valid() && sample == lastSample == buffers[active][old(index)]
      ensures delivered == old(delivered) + [sample] && index == old(index) + 1
    {
      hide Count, Conserved, Queue;
      ghost var batch := Batch(active);
      assert batch[..index + 1] == batch[..index] + [batch[index]];
      lastSample := buffers[active][index];
      index := index + 1;
      delivered := delivered + [lastSample];
      sample := lastSample;
    }

    /** The word of the buffer read next, seen empty: the other one comes next. */
    method PassOn()
      requires Valid() && Count(word[turn]) == 0
      modifies `turn
      ensures Valid() && turn == 1 - old(turn)
    {
      hide Count, InOrder, Conserved, Queue, Held;
      HeldIsBatch(word[turn], buffers[turn]);
      PassOver(HeldBy(0), HeldBy(1), turn, handed);
      turn := 1 - turn;
    }

    /** The active buffer had nothing: request it, and try the other one. */
    method TryOther(state: nat) returns (found: bool)
      requires Valid() && index == 0 && Count(state) == 0 && turn == 1 - active
      requires state < 0x1_0000 || alone ==> word[active] == state
      modifies this
      ensures Valid() && turn == active && handed == old(handed) && delivered == old(delivered) && old(order) <= order
      ensures lastSample == old(lastSample) && underruns == old(underruns) && alone == old(alone) && index == 0
      ensures found ==> index < Count(word[active])
      ensures old(Count(word[1 - active])) > 0 ==> found
      ensures alone && found ==> old(Count(word[1 - active])) > 0
      ensures order == old(order) && !found && old(Count(word[active])) == 0 ==> HeldBy(0) == HeldBy(1) == []
      ensures alone && !found ==> active == old(active) && word == [Requested(old(word[0])), Requested(old(word[1]))]
      ensures alone ==> buffers == old(buffers) && order == old(order) && inTurn == old(inTurn)
      ensures alone ==> FillingKept()
    {
      hide Count, InOrder, Conserved, Queue, Held;
      RequestActive(state);
      Counts(word[1 - active]);
      var otherState := Look(1 - active);
      found := TakeOther(otherState);
    }

    method RequestActive(state: nat)
      requires Valid() && index == 0 && Count(state) == 0 && turn == 1 - active
      requires state < 0x1_0000 || alone ==> word[active] == state
      modifies this
      ensures Valid() && turn == old(turn) && active == old(active) && index == 0 && old(order) <= order
      ensures handed == old(handed) && delivered == old(delivered)
      ensures lastSample == old(lastSample) && underruns == old(underruns) && alone == old(alone)
      ensures old(Count(word[1 - active])) > 0 ==> word[1 - active] == old(word[1 - active])
      ensures order == old(order) ==> Count(word[active]) == old(Count(word[active]))
      ensures alone ==> word == old(word)[active := Requested(state)]
      ensures alone ==> buffers == old(buffers) && order == old(order) && inTurn == old(inTurn)
    {
      hide Count, InOrder, Conserved, Queue, Held;
      Counts(word[1 - active]);
      Counts(word[active]);
      if state == 0 { RequestIfIdle(active); }
      Interfere();
    }

    /** The other buffer becomes active, or is requested too. */
    method TakeOther(otherState: nat) returns (found: bool)
      requires Valid() && index == 0 && turn == if Count(otherState) == 0 then active else 1 - active
      requires StateWord(otherState) && (otherState < 0x1_0000 || alone ==> word[1 - active] == otherState)
      modifies this
      ensures Valid() && turn == active && handed == old(handed) && delivered == old(delivered) && old(order) <= order
      ensures lastSample == old(lastSample) && underruns == old(underruns) && alone == old(alone) && index == 0
      ensures found == (Count(otherState) > 0) && (found ==> 0 < Count(word[active]))
      ensures order == old(order) && !found && old(Count(word[0])) == old(Count(word[1])) == 0 ==>
                HeldBy(0) == HeldBy(1) == []
      ensures alone && !found ==> active == old(active) && word == old(word)[1 - active := Requested(otherState)]
      ensures alone && found ==> word == old(word)
      ensures alone ==> buffers == old(buffers) && order == old(order) && inTurn == old(inTurn)
    {
      hide Count, InOrder, Conserved, Queue, Held;
      Counts(otherState);
      found := Count(otherState) != 0;
      if found {
        Switch();
      } else {
        if otherState == 0 { RequestIfIdle(1 - active); }
        Counts(word[1 - active]);
        Interfere();
        HeldIfCounted();
      }
    }

    lemma HeldIfCounted()
      requires Shape()
      ensures HeldBy(0) == [] <==> Count(word[0]) == 0
      ensures HeldBy(1) == [] <==> Count(word[1]) == 0
    {
    }

    method Switch()
      requires Valid() && index == 0 && turn == 1 - active
      modifies `active, `index
      ensures Valid() && active == turn && index == 0
    {
      hide Count, Conserved, Queue, Held;
      assert Batch(active)[..0] == Batch(turn)[..0];
      active, index := 1 - active, 0;
    }

    /** next(): the next unread sample, or the last one again and an underrun. */
    method Next() returns (sample: int)
      requires Valid() && turn == active
      modifies this
      ensures Valid() && sample == lastSample && turn == active && alone == old(alone)
      ensures if delivered == old(delivered)
              then sample == old(lastSample) && underruns == (old(underruns) + 1) % 0x1_0000_0000
              else delivered == old(delivered) + [sample] && underruns == old(underruns)
      ensures old(Unread(0) || Unread(1)) ==> delivered != old(delivered)
      ensures handed == old(handed) ||
              (old(Count(word[active])) == old(index) > 0 && handed == old(handed) + [old(Batch(active))])
      ensures inTurn ==> handed <= order && delivered <= Flatten(order)
      ensures order == old(order) ==> Settled()
      ensures alone ==> order == old(order) && buffers == old(buffers) && inTurn == old(inTurn)
      ensures alone && old(!Unread(0) && !Unread(1)) ==>
                && active == (if old(Count(word[active])) > 0 then 1 - old(active) else old(active)) && index == 0
                && delivered == old(delivered)
                && forall k :: 0 <= k < 2 ==> word[k] == if old(word)[k] == FILLING then FILLING else REFILL_REQUESTED
      ensures alone && old(index < Count(word[active])) ==>
                sample == old(buffers[active][index]) &&
                active == old(active) && index == old(index) + 1 && word == old(word)
      ensures alone ==> FillingKept()
    {
      hide Count, InOrder, Conserved, Queue, Held, Flatten;
      var found := Advance();
      if found {
        sample := Take();
      } else {
        underruns := (underruns + 1) % 0x1_0000_0000;
        sample := lastSample;
      }
      PlayedInOrder();
      HeldIfCounted();
    }

    /** Everything before the sample is read or the last one repeated. */
    method Advance() returns (found: bool)
      requires Valid() && turn == active
      modifies this
      ensures Valid() && turn == active && alone == old(alone)
      ensures delivered == old(delivered) && lastSample == old(lastSample) && underruns == old(underruns)
      ensures found ==> index < Count(word[active])
      ensures old(Unread(0) || Unread(1)) ==> found
      ensures handed == old(handed) ||
              (old(Count(word[active])) == old(index) > 0 && handed == old(handed) + [old(Batch(active))])
      ensures order == old(order) && !found ==> HeldBy(0) == HeldBy(1) == []
      ensures alone ==> order == old(order) && buffers == old(buffers) && inTurn == old(inTurn)
      ensures alone && old(!Unread(0) && !Unread(1)) ==>
                && !found && active == (if old(Count(word[active])) > 0 then 1 - old(active) else old(active))
                && index == 0
                && word == [Requested(old(word[0])), Requested(old(word[1]))]
      ensures alone && old(index < Count(word[active])) ==>
                found && active == old(active) && index == old(index) && word == old(word)
      ensures alone ==> FillingKept()
    {
      hide Count, InOrder, Conserved, Queue, Held;
      Counts(0);
      IndexFits();
      var state := LookAtActive();
      found := Count(state) != 0;
      if !found { found := TryOther(state); }
    }

    /** A claimed buffer stays claimed, and none other becomes so. */
    twostate predicate FillingKept()
      reads this
    {
      && |word| == |old(word)| == 2
      && (old(word[0]) == FILLING <==> word[0] == FILLING)
      && (old(word[1]) == FILLING <==> word[1] == FILLING)
    }

    /** Any number of calls by the ISR, which the loop cannot preempt. */
    method Consume() returns (calls: nat)
      requires Valid() && turn == active && alone
      modifies this
      ensures Valid() && turn == active && alone && FillingKept()
      ensures order == old(order) && buffers == old(buffers) && inTurn == old(inTurn)
      ensures old(Settled()) || calls > 0 ==> Settled()
    {
      hide Count, InOrder, Conserved, Queue, Held, Settled;
      calls :| true;
      for done := 0 to calls
        invariant Valid() && turn == active && alone && FillingKept()
        invariant order == old(order) && buffers == old(buffers) && inTurn == old(inTurn)
        invariant old(Settled()) || done > 0 ==> Settled()
      {
        var _ := Next();
      }
    }

    /** What has been played is the beginning of what was published. */
    lemma PlayedInOrder()
      requires Valid() && turn == active
      ensures inTurn ==> handed <= order && delivered <= Flatten(order)
    {
      hide Count, Conserved, Flatten;
      if inTurn {
        var q := Held(word[1 - active], buffers[1 - active]);
        if HeldBy(active) == [] {
          assert delivered == Flatten(handed) + [] == Flatten(handed);
          assert order == handed + q;
          FlattenMore(handed, q);
        } else {
          FlattenNext(handed, Batch(active));
          FlattenMore(handed + [Batch(active)], q);
          assert order == handed + [Batch(active)] + q;
          assert delivered <= Flatten(handed) + Batch(active);
        }
      }
    }

    /** The active buffer's state word, after handing back an exhausted one. */
    method LookAtActive() returns (state: nat)
      requires Valid() && turn == active
      modifies this
      ensures Valid() && delivered == old(delivered) && lastSample == old(lastSample) && underruns == old(underruns)
      ensures alone == old(alone) && old(order) <= order
      ensures Count(state) > 0 ==> index < Count(word[active]) && turn == active
      ensures order == old(order) && Count(state) == 0 ==> Count(word[active]) == 0
      ensures Count(state) == 0 ==> index == 0 && (state < 0x1_0000 ==> word[active] == state) && turn == 1 - active
      ensures old(Unread(0) || Unread(1)) ==> Count(state) > 0 || Count(word[1 - active]) > 0
      ensures handed == old(handed) ||
              (old(Count(word[active])) == old(index) > 0 && handed == old(handed) + [old(Batch(active))])
      ensures alone ==>
                && word[active] == state && buffers == old(buffers) && order == old(order) && inTurn == old(inTurn)
                && (if old(Count(word[active])) == old(index) > 0
                    then active == 1 - old(active) && index == 0 && word == old(word)[old(active) := REFILL_REQUESTED]
                    else active == old(active) && index == old(index) && word == old(word))
    {
      hide Count, InOrder, Conserved, Queue, Held;
      IndexFits();
      Counts(word[active]);
      Counts(word[1 - active]);
      state := Look(active);
      if Count(state) != 0 && index >= Count(state) {
        HandBack();
        Counts(word[active]);
        state := Look(active);
      }
    }

    /** One load of the word of the buffer read next. */
    method Look(k: nat) returns (state: nat)
      requires Valid() && turn == k
      modifies this
      ensures Valid() && ProducerOnlyButTurn()
      ensures state == old(word[k]) && (state < 0x1_0000 ==> word[k] == state)
      ensures turn == if Count(state) == 0 then 1 - k else k
    {
      hide Count, InOrder, Conserved, Queue, Held;
      state := word[k];
      if Count(state) == 0 { PassOn(); }
      Interfere();
    }

    lemma IndexFits()
      requires Valid()
      ensures index <= Count(word[active])
    {
    }
  }

  /** A run of the ring that plays what was published last before what was published first: both
      buffers requested while buffer 1 is active, then published 0 before 1 with no call between. */
  method PlayedOutOfTurn(x: int, y: int, z: int) returns (ring: StreamRing)
    requires y != z
    ensures ring.Valid() && ring.order == [[x], [z], [y]] && ring.delivered == [x, y] && !ring.inTurn
  {
    hide Count, InOrder, Conserved, Queue, Held, StreamRing.Valid, StreamRing.Settled, StreamRing.Overtakes;
    ring := Exhausted(x, y);
    Counts(0);
    Counts(1);
    var _ := ring.BeginRefill(0);
    assert [x][0 := z] == [z] && [[x], [y]][0 := [z]] == [[z], [y]];
    ring.Write(0, 0, z);
    var _ := ring.BeginRefill(1);
    assert [z][..1] == [z] && [y][..1] == [y] && [[x]] + [[z]] == [[x], [z]];
    ring.MarkFilled(0, 1);
    assert [REFILL_REQUESTED, REFILL_REQUESTED][0 := FILLING][1 := FILLING][0 := 1] == [1, FILLING];
    Overtaken(ring, y, z);
    assert [[x], [z]] + [[y]] == [[x], [z], [y]];
    ring.MarkFilled(1, 1);
    var _ := ring.Next();
  }

  lemma Overtaken(ring: StreamRing, y: int, z: int)
    requires ring.Valid() && ring.turn == 1 && ring.word == [1, FILLING] && ring.buffers == [[z], [y]] && y != z
    ensures ring.Overtakes(1, 1)
  {
    assert Count(1) == 1 && [z][..1] == [z];
    assert ring.HeldBy(0) == [[z]];
    assert [[z]][0][0] != [[y]][0][0];
  }

  /** Buffer 0 played to its end, both buffers requested, buffer 1 active. */
  method Exhausted(x: int, y: int) returns (ring: StreamRing)
    ensures fresh(ring) && ring.Valid() && ring.turn == ring.active == 1 && ring.index == 0 && ring.alone
    ensures ring.buffers == [[x], [y]] && ring.word == [REFILL_REQUESTED, REFILL_REQUESTED]
    ensures ring.order == [[x]] && ring.delivered == [x] && ring.inTurn
  {
    hide Count, InOrder, Conserved, Queue, Held, StreamRing.Valid, StreamRing.Settled, StreamRing.Overtakes;
    Counts(0);
    Counts(1);
    ring := Loaded(x, y);
    assert [] + [x] == [x];
    var _ := ring.Next();
    var _ := ring.Next();
  }

  method Loaded(x: int, y: int) returns (ring: StreamRing)
    ensures fresh(ring) && ring.Valid() && ring.turn == ring.active == 0 && ring.index == 0 && ring.alone
    ensures ring.buffers == [[x], [y]] && ring.word == [1, REFILL_REQUESTED]
    ensures ring.order == [[x]] && ring.delivered == [] && ring.inTurn
  {
    hide Count, InOrder, Conserved, Queue, Held, StreamRing.Valid, StreamRing.Settled, StreamRing.Overtakes;
    Counts(0);
    ring := new StreamRing([[x], [y]]);
    var _ := ring.Next();
    var _ := ring.BeginRefill(0);
    assert [x][..1] == [x] && [] + [[x]] == [[x]];
    ring.MarkFilled(0, 1);
  }

  // ------------------------------------------------------------- src/waveform.cpp

  /** The first n samples of the file played over and over. */
  function Wave(file: seq<int>, n: nat): (w: seq<int>)
    requires |file| > 0
    ensures |w| == n && forall i :: 0 <= i < n ==> w[i] == file[i % |file|]
  {
    seq(n, i requires 0 <= i => file[i % |file|])
  }

  lemma WrapsAtEnd(x: nat, j: nat, len: nat)
    requires len > 0 && x % len + j <= len
    ensures (x + j) % len == if x % len + j == len then 0 else x % len + j
  {
    var q := x / len;
    assert x == q * len + x % len;
    if x % len + j == len {
      assert x + j == (q + 1) * len;
      Multiple(q + 1, 0, len);
    } else {
      Multiple(q, x % len + j, len);
    }
  }

  lemma Multiple(q: nat, r: nat, len: nat)
    requires r < len
    ensures (q * len + r) % len == r
  {
    var y := q * len + r;
    var q', r' := y / len, y % len;
    assert y == q' * len + r';
    assert (q' - q) * len == q' * len - q * len && (q - q') * len == q * len - q' * len;
    if q < q' {
      Product(q' - q, len);
    } else if q > q' {
      Product(q - q', len);
    }
  }

  lemma Product(a: nat, len: nat)
    requires a >= 1
    ensures a * len >= len
  {
  }

  class Player {
    const ring: StreamRing
    const file: seq<int>      // the stored samples
    var next: nat             // streamNextSample
    ghost var failures: nat   // reads of the file that failed
    ghost var paced: bool     // every fill was published with the ring settled, or saw a call of the ISR

    ghost function Published(): seq<int>
      reads ring`order
    {
      Flatten(ring.order)
    }

    ghost predicate Valid()
      reads this, ring
    {
      && ring.Valid() && ring.turn == ring.active && ring.alone
      && 0 < |file| && |ring.buffers[0]| < 0x1_0000 && |ring.buffers[1]| < 0x1_0000
      && Published() == Wave(file, |Published()|) && next == |Published()| % |file|
      && (paced ==> ring.inTurn)
    }

    constructor (file: seq<int>, buffers: seq<seq<int>>)
      requires |file| > 0 && |buffers| == 2 && |buffers[0]| < 0x1_0000 && |buffers[1]| < 0x1_0000
      ensures Valid() && paced && fresh(ring) && this.file == file && ring.delivered == []
    {
      hide Count, InOrder, Conserved, Queue, Held, StreamRing.Settled, StreamRing.Valid, Wave;
      ring := new StreamRing(buffers);
      this.file := file;
      next, failures, paced := 0, 0, true;
    }

    /** The file front to back, over and over, as long as fills are paced. */
    lemma PlaysTheFile()
      requires Valid() && paced
      ensures ring.delivered == Wave(file, |ring.delivered|)
    {
      hide Flatten;
      ring.PlayedInOrder();
    }

    /** waveformStreamTask(), the ISR running between any two steps of it. */
    method StreamTask()
      requires Valid()
      modifies this, ring
      ensures Valid() && |old(Published())| <= |Published()|
      ensures forall k :: 0 <= k < 2 && old(ring.word)[k] != FILLING ==> ring.word[k] != FILLING
    {
      hide Flatten, Count, InOrder, Conserved, Queue, Held, StreamRing.Settled, StreamRing.Overtakes, Wave;
      for k := 0 to 2
        invariant Valid() && |old(Published())| <= |Published()|
        invariant forall j :: 0 <= j < 2 && old(ring.word)[j] != FILLING ==> ring.word[j] != FILLING
      {
        var claimed := ring.BeginRefill(k);
        if claimed { var _, _ := FillStreamBuffer(k); }
        var _ := ring.Consume();
      }
    }

    /** The first `total` samples of buffer k are the next ones to be published. */
    ghost predicate Filled(k: nat, total: nat)
      requires k < |ring.buffers|
      reads this, ring
    {
      && 0 < |file| && total <= |ring.buffers[k]|
      && forall i :: 0 <= i < total ==> ring.buffers[k][i] == file[(|Published()| + i) % |file|]
    }

    /** fillStreamBuffer(): reads up to the end of the file at a time; a read that fails ends it.
        The fill is paced when nothing was waiting or the ISR has called since. */
    method FillStreamBuffer(k: nat) returns (total: nat, ok: bool)
      requires Valid() && k < 2 && ring.word[k] == FILLING
      modifies this, ring
      ensures Valid() && |Published()| == |old(Published())| + total
      ensures ring.word[k] == total <= |ring.buffers[k]| && (ok ==> total == |ring.buffers[k]|)
      ensures ok <==> failures == old(failures)
      ensures ring.word[1 - k] == FILLING <==> old(ring.word)[1 - k] == FILLING
    {
      hide Flatten, Count, InOrder, Conserved, Queue, Held, Wave;
      ghost var position := |Published()|;
      ghost var settled, calls: nat := ring.Settled(), 0;
      total, ok := 0, true;
      while total < |ring.buffers[k]| && ok
        invariant ring.Valid() && ring.turn == ring.active && ring.alone && ring.word[k] == FILLING
        invariant ring.order == old(ring.order) && ring.inTurn == old(ring.inTurn) && paced == old(paced)
        invariant failures >= old(failures) && (ok <==> failures == old(failures))
        invariant |ring.buffers[0]| == |old(ring.buffers)[0]| && |ring.buffers[1]| == |old(ring.buffers)[1]|
        invariant Filled(k, total) && next == (position + total) % |file|
        invariant settled || calls > 0 ==> ring.Settled()
        invariant ring.word[1 - k] == FILLING <==> old(ring.word)[1 - k] == FILLING
        decreases |ring.buffers[k]| - total, ok
      {
        var n, ran;
        ok, n, ran := ReadOn(k, total);
        calls := calls + ran;
        total := total + n;
      }
      PublishFill(k, total, settled || calls > 0);
    }

    /** As many samples as the buffer takes or the file has left; at its end the position wraps. */
    method ReadOn(k: nat, total: nat) returns (ok: bool, n: nat, calls: nat)
      requires ring.Valid() && ring.turn == ring.active && ring.alone && k < 2 && ring.word[k] == FILLING
      requires total < |ring.buffers[k]| && Filled(k, total) && next == (|Published()| + total) % |file|
      modifies `next, `failures, ring
      ensures failures >= old(failures) && (ok <==> failures == old(failures))
      ensures ring.Valid() && ring.turn == ring.active && ring.alone && ring.word[k] == FILLING
      ensures ring.order == old(ring.order) && ring.inTurn == old(ring.inTurn)
      ensures |ring.buffers[0]| == |old(ring.buffers)[0]| && |ring.buffers[1]| == |old(ring.buffers)[1]|
      ensures Filled(k, total + n) && next == (|Published()| + total + n) % |file| && (if ok then n > 0 else n == 0)
      ensures old(ring.Settled()) || calls > 0 ==> ring.Settled()
      ensures ring.word[1 - k] == FILLING <==> old(ring.word)[1 - k] == FILLING
    {
      hide Flatten, Count, InOrder, Conserved, Queue, Held, StreamRing.Settled;
      n := |file| - next;
      if n > |ring.buffers[k]| - total { n := |ring.buffers[k]| - total; }
      ok, calls := Read(k, total, n);
      if !ok { return false, 0, calls; }
      WrapsAtEnd(|Published()| + total, n, |file|);
      next := next + n;
      if next >= |file| { next := 0; }
    }

    method PublishFill(k: nat, total: nat, ghost pacing: bool)
      requires ring.Valid() && ring.turn == ring.active && ring.alone && k < 2 && ring.word[k] == FILLING
      requires |ring.buffers[0]| < 0x1_0000 && |ring.buffers[1]| < 0x1_0000
      requires Filled(k, total) && next == (|Published()| + total) % |file| && Published() == Wave(file, |Published()|)
      requires (pacing ==> ring.Settled()) && (paced ==> ring.inTurn)
      modifies this, ring
      ensures Valid() && |Published()| == |old(Published())| + total && paced == (old(paced) && pacing)
      ensures ring.word == old(ring.word)[k := total] && ring.buffers == old(ring.buffers) && failures == old(failures)
    {
      hide Flatten, Count, InOrder, Conserved, Queue, Held, StreamRing.Settled, StreamRing.Overtakes;
      paced := paced && pacing;
      ring.MarkFilled(k, total);
      FlattenNext(old(ring.order), ring.buffers[k][..total]);
      assert ring.order == old(ring.order) + [] == old(ring.order) || total > 0;
      assert Published() == Wave(file, |old(Published())| + total);
    }

    /** n samples from the file position into the buffer, or some of them and a failure. */
    method Read(k: nat, total: nat, n: nat) returns (ok: bool, calls: nat)
      requires ring.Valid() && ring.turn == ring.active && ring.alone && k < 2 && ring.word[k] == FILLING
      requires total + n <= |ring.buffers[k]| && Filled(k, total)
      requires next == (|Published()| + total) % |file| && next + n <= |file|
      modifies `failures, ring
      ensures failures >= old(failures) && (ok <==> failures == old(failures))
      ensures ring.Valid() && ring.turn == ring.active && ring.alone && ring.word[k] == FILLING
      ensures ring.order == old(ring.order) && ring.inTurn == old(ring.inTurn)
      ensures |ring.buffers[0]| == |old(ring.buffers)[0]| && |ring.buffers[1]| == |old(ring.buffers)[1]|
      ensures Filled(k, if ok then total + n else total)
      ensures old(ring.Settled()) || calls > 0 ==> ring.Settled()
      ensures ring.word[1 - k] == FILLING <==> old(ring.word)[1 - k] == FILLING
    {
      hide Flatten, Count, InOrder, Conserved, Queue, Held, StreamRing.Settled;
      calls := 0;
      for j := 0 to n
        invariant ring.Valid() && ring.turn == ring.active && ring.alone && ring.word[k] == FILLING
        invariant ring.order == old(ring.order) && ring.inTurn == old(ring.inTurn)
        invariant |ring.buffers[0]| == |old(ring.buffers)[0]| && |ring.buffers[1]| == |old(ring.buffers)[1]|
        invariant Filled(k, total + j) && failures == old(failures)
        invariant old(ring.Settled()) || calls > 0 ==> ring.Settled()
        invariant ring.word[1 - k] == FILLING <==> old(ring.word)[1 - k] == FILLING
      {
        var fails: bool := *;
        if fails {
          failures := failures + 1;
          return false, calls;
        }
        WrapsAtEnd(|Published()| + total, j, |file|);
        ring.Write(k, total + j, file[next + j]);
        var ran := ring.Consume();
        calls := calls + ran;
      }
      ok := true;
    }
  }
}
