/** The cautionary captions and the random choice among them at mount time. */
module Captions {

  /** The five captions, in source order. */
  const TimeWarnings: seq<string> := [
    "时间不会等待任何人",
    "每一个瞬间都是珍贵的礼物",
    "时间是最公平的资源",
    "把握当下，珍惜眼前",
    "时间一去不复返"
  ]

  /**
   * `TIME_WARNINGS[Math.floor(Math.random() * TIME_WARNINGS.length)]`, with the
   * value drawn by `Math.random()` passed in as `r`.
   */
  function PickWarning(r: real): (w: string)
    requires 0.0 <= r < 1.0
    ensures w in TimeWarnings
  {
    TimeWarnings[WarningIndex(r)]
  }

  /** The index `floor(r * 5)` the draw selects, with the product taken over the reals. */
  function WarningIndex(r: real): (k: int)
    requires 0.0 <= r < 1.0
    ensures 0 <= k < |TimeWarnings|
    ensures k as real <= r * |TimeWarnings| as real < k as real + 1.0
  {
    (r * |TimeWarnings| as real).Floor
  }

  /**
   * Caption `k` is chosen exactly when the draw falls in [k/5, (k+1)/5):
   * in real arithmetic each caption has an equal share.
   */
  lemma PickedOnItsFifth(r: real, k: int)
    requires 0.0 <= r < 1.0
    requires 0 <= k < |TimeWarnings|
    ensures WarningIndex(r) == k <==> k as real / 5.0 <= r < (k + 1) as real / 5.0
  {
    var j := WarningIndex(r);
    assert j as real <= r * 5.0 < j as real + 1.0;
  }
}
