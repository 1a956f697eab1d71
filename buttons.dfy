/**
 * The clickable elements both content-script variants scan for "see more"
 * style controls, the label they test, and the indices of the elements a
 * click pass selects. A regular expression over the lower-cased label is
 * an abstract predicate on the label.
 */
module Buttons {
  import opened Wrappers

  /** A `button`, `a[role="button"]` or `.artdeco-button` element; `visible` is `offsetParent !== null`. */
  datatype Button = Button(innerText: string, ariaLabel: Option<string>, visible: bool)

  /** `b.innerText || b.getAttribute('aria-label') || ''`. */
  function Label(b: Button): (r: string)
    ensures r == "" <==> b.innerText == "" && (b.ariaLabel.None? || b.ariaLabel.value == "")
    ensures r != "" ==> r == b.innerText || Some(r) == b.ariaLabel
    ensures b.innerText != "" ==> r == b.innerText
  {
    if b.innerText != "" then b.innerText
    else if b.ariaLabel.Some? then b.ariaLabel.value
    else ""
  }

  /** `patterns.some((p) => p.test(label))`. */
  predicate AnyMatch(patterns: seq<string -> bool>, text: string) {
    exists i :: 0 <= i < |patterns| && patterns[i](text)
  }

  /** Whether a click pass clicks `b`; with `onlyVisible` a hidden element is skipped. */
  predicate Selected(b: Button, patterns: seq<string -> bool>, onlyVisible: bool) {
    (!onlyVisible || b.visible) && AnyMatch(patterns, Label(b))
  }

  /** The indices of the elements a click pass clicks, in document order. */
  function SelectedIndices(bs: seq<Button>, patterns: seq<string -> bool>, onlyVisible: bool): (r: seq<nat>)
    ensures forall k :: 0 <= k < |r| ==> r[k] < |bs| && Selected(bs[r[k]], patterns, onlyVisible)
    ensures forall k, m :: 0 <= k < m < |r| ==> r[k] < r[m]
    ensures forall i :: 0 <= i < |bs| && Selected(bs[i], patterns, onlyVisible) ==> i in r
    ensures |r| <= |bs|
    decreases |bs|
  {
    if bs == [] then []
    else
      var n := |bs| - 1;
      var init := SelectedIndices(bs[..n], patterns, onlyVisible);
      assert forall i :: 0 <= i < n ==> bs[..n][i] == bs[i];
      init + (if Selected(bs[n], patterns, onlyVisible) then [n] else [])
  }

  /** A click pass over one more element selects that element's index after the earlier ones, if it is selected. */
  lemma SelectedIndicesStep(bs: seq<Button>, i: nat, patterns: seq<string -> bool>, onlyVisible: bool)
    requires i < |bs|
    ensures SelectedIndices(bs[..i + 1], patterns, onlyVisible) ==
      SelectedIndices(bs[..i], patterns, onlyVisible) + (if Selected(bs[i], patterns, onlyVisible) then [i] else [])
  {
    assert bs[..i + 1][..i] == bs[..i];
  }

  /** The click counts of passes `0` to `n - 1`, where pass `k` sees the controls `domAt(k)`. */
  function PassCounts(domAt: nat -> seq<Button>, patterns: seq<string -> bool>, onlyVisible: bool, n: nat): (r: seq<nat>)
    ensures |r| == n
  {
    if n == 0 then []
    else PassCounts(domAt, patterns, onlyVisible, n - 1) + [|SelectedIndices(domAt(n - 1), patterns, onlyVisible)|]
  }

  /** Pass `k`'s count is the number of controls it selects. */
  lemma {:induction false} PassCountsAt(domAt: nat -> seq<Button>, patterns: seq<string -> bool>, onlyVisible: bool, n: nat, k: nat)
    requires k < n
    ensures PassCounts(domAt, patterns, onlyVisible, n)[k] == |SelectedIndices(domAt(k), patterns, onlyVisible)|
  {
    if k < n - 1 {
      PassCountsAt(domAt, patterns, onlyVisible, n - 1, k);
    }
  }

  /** Every pass's count is the number of controls it selects. */
  lemma PassCountsAll(domAt: nat -> seq<Button>, patterns: seq<string -> bool>, onlyVisible: bool, n: nat)
    ensures forall k :: 0 <= k < n ==>
      PassCounts(domAt, patterns, onlyVisible, n)[k] == |SelectedIndices(domAt(k), patterns, onlyVisible)|
  {
    forall k | 0 <= k < n
      ensures PassCounts(domAt, patterns, onlyVisible, n)[k] == |SelectedIndices(domAt(k), patterns, onlyVisible)|
    {
      PassCountsAt(domAt, patterns, onlyVisible, n, k);
    }
  }

  /** Nothing is clicked exactly when no element is selected. */
  lemma NoneSelected(bs: seq<Button>, patterns: seq<string -> bool>, onlyVisible: bool)
    ensures SelectedIndices(bs, patterns, onlyVisible) == [] <==>
      forall i :: 0 <= i < |bs| ==> !Selected(bs[i], patterns, onlyVisible)
  {
    var r := SelectedIndices(bs, patterns, onlyVisible);
    if r != [] {
      assert Selected(bs[r[0]], patterns, onlyVisible);
    }
  }

  /** The visibility-checking pass clicks a subset of what the unchecked pass clicks, and never a hidden element. */
  lemma VisibleSelectionIsNarrower(bs: seq<Button>, patterns: seq<string -> bool>)
    ensures forall k :: 0 <= k < |SelectedIndices(bs, patterns, true)| ==>
      SelectedIndices(bs, patterns, true)[k] in SelectedIndices(bs, patterns, false) &&
      bs[SelectedIndices(bs, patterns, true)[k]].visible
  {
  }
}
