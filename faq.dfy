/** The FAQ accordion: which items are open after a question is clicked. */
module Faq {

  /** At most one item is open. */
  predicate AtMostOneOpen(open: seq<bool>) {
    forall i, j :: 0 <= i < |open| && 0 <= j < |open| && open[i] && open[j] ==> i == j
  }

  /** The items open after `toggleFaqItem` on item `k`: every item is closed, then `k` is
      reopened when it was closed before. */
  function Toggled(open: seq<bool>, k: nat): (r: seq<bool>)
    requires k < |open|
    ensures |r| == |open|
    ensures r[k] == !open[k]
    ensures forall j :: 0 <= j < |r| && j != k ==> !r[j]
    ensures AtMostOneOpen(r)
  {
    seq(|open|, j => j == k && !open[k])
  }

  /** Clicking the same question twice restores the accordion exactly when no other item was
      open to begin with. */
  lemma ToggleTwice(open: seq<bool>, k: nat)
    requires k < |open|
    ensures Toggled(Toggled(open, k), k) == open <==> forall j :: 0 <= j < |open| && j != k ==> !open[j]
  {
    var twice := Toggled(Toggled(open, k), k);
    if forall j :: 0 <= j < |open| && j != k ==> !open[j] {
      assert forall j :: 0 <= j < |open| ==> twice[j] == open[j];
    }
  }

  /** Clicking an open item closes everything. */
  lemma ToggleOpenClosesAll(open: seq<bool>, k: nat)
    requires k < |open| && open[k]
    ensures forall j :: 0 <= j < |open| ==> !Toggled(open, k)[j]
  {
  }

  /** Clicking a closed item leaves exactly that item open. */
  lemma ToggleClosedOpensIt(open: seq<bool>, k: nat)
    requires k < |open| && !open[k]
    ensures forall j :: 0 <= j < |open| ==> (Toggled(open, k)[j] <==> j == k)
  {
  }
}
