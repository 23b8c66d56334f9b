/** The index arithmetic of the testimonial slider: one step forward wraps from the last slide
    to the first, one step back wraps from the first slide to the last. */
module Carousel {

  /** `(index + 1) % length` in `showNextTestimonial`. */
  function NextIndex(i: nat, n: nat): (r: nat)
    requires i < n
    ensures r < n
    ensures i + 1 < n ==> r == i + 1
    ensures i + 1 == n ==> r == 0
  {
    (i + 1) % n
  }

  /** `index === 0 ? length - 1 : index - 1` in `showPreviousTestimonial`. */
  function PrevIndex(i: nat, n: nat): (r: nat)
    requires i < n
    ensures r < n
    ensures i > 0 ==> r == i - 1
    ensures i == 0 ==> r == n - 1
  {
    if i == 0 then n - 1 else i - 1
  }

  /** A step back undoes a step forward, and a step forward undoes a step back. */
  lemma PrevUndoesNext(i: nat, n: nat)
    requires i < n
    ensures PrevIndex(NextIndex(i, n), n) == i
    ensures NextIndex(PrevIndex(i, n), n) == i
  {
  }

  /** The slide shown after `k` forward steps from slide `i`, as autoplay reaches it. */
  function Advance(i: nat, n: nat, k: nat): (r: nat)
    requires i < n
    ensures r < n
  {
    if k == 0 then i else NextIndex(Advance(i, n, k - 1), n)
  }

  /** The slide shown after `k` backward steps from slide `i`. */
  function Retreat(i: nat, n: nat, k: nat): (r: nat)
    requires i < n
    ensures r < n
  {
    if k == 0 then i else PrevIndex(Retreat(i, n, k - 1), n)
  }

  /** Until the last slide is passed, `k` forward steps from slide `i` land on `i + k`. */
  lemma {:induction false} AdvanceWithinRange(i: nat, n: nat, k: nat)
    requires i + k < n
    ensures Advance(i, n, k) == i + k
  {
    if k > 0 {
      AdvanceWithinRange(i, n, k - 1);
    }
  }

  /** `a + b` forward steps are `a` steps followed by `b` steps. */
  lemma {:induction false} AdvanceCompose(i: nat, n: nat, a: nat, b: nat)
    requires i < n
    ensures Advance(i, n, a + b) == Advance(Advance(i, n, a), n, b)
  {
    if b > 0 {
      AdvanceCompose(i, n, a, b - 1);
    }
  }

  /** Going round the whole slider brings the same slide back. */
  lemma {:induction false} FullCycle(i: nat, n: nat)
    requires i < n
    ensures Advance(i, n, n) == i
  {
    AdvanceWithinRange(i, n, n - i - 1);
    assert Advance(i, n, n - i) == 0;
    AdvanceCompose(i, n, n - i, i);
    if i > 0 {
      AdvanceWithinRange(0, n, i);
    }
  }

  /** The slider is periodic: `n` more steps make no difference. */
  lemma {:induction false} AdvancePeriodic(i: nat, n: nat, k: nat)
    requires i < n
    ensures Advance(i, n, k + n) == Advance(i, n, k)
  {
    AdvanceCompose(i, n, n, k);
    FullCycle(i, n);
  }

  /** `k` backward steps undo `k` forward steps. */
  lemma {:induction false} RetreatUndoesAdvance(i: nat, n: nat, k: nat)
    requires i < n
    ensures Retreat(Advance(i, n, k), n, k) == i
  {
    if k > 0 {
      RetreatAfterNext(Advance(i, n, k - 1), n, k - 1);
      RetreatUndoesAdvance(i, n, k - 1);
    }
  }

  /** Moving `k + 1` steps back from the slide after `j` is moving `k` steps back from `j`. */
  lemma {:induction false} RetreatAfterNext(j: nat, n: nat, k: nat)
    requires j < n
    ensures Retreat(NextIndex(j, n), n, k + 1) == Retreat(j, n, k)
  {
    if k == 0 {
      PrevUndoesNext(j, n);
    } else {
      RetreatAfterNext(j, n, k - 1);
    }
  }
}
