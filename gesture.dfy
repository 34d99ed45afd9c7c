/** Reduction of the detected hands of one camera frame to a control gesture. */
module Gesture {
  datatype Option<T> = None | Some(value: T)

  datatype Gesture = Up | Down

  /** The two landmarks the game reads from a detected hand: the vertical image
      coordinates of the thumb tip and of the index-finger tip (smaller is higher). */
  datatype Hand = Hand(thumbTipY: real, indexTipY: real)

  /** No hand gives no gesture; otherwise only the first detected hand decides:
      thumb tip above index tip is Up, anything else is Down. */
  function TrackHand(hands: seq<Hand>): (r: Option<Gesture>)
    ensures r == None <==> hands == []
    ensures r == Some(Up) <==> hands != [] && hands[0].thumbTipY < hands[0].indexTipY
    ensures r == Some(Down) <==> hands != [] && hands[0].thumbTipY >= hands[0].indexTipY
  {
    if |hands| > 0 then
      var hand := hands[0];
      if hand.thumbTipY < hand.indexTipY then Some(Up) else Some(Down)
    else
      None
  }

  /** Hands after the first one never change the gesture. */
  lemma {:induction false} OnlyFirstHandCounts(first: Hand, others: seq<Hand>, others': seq<Hand>)
    ensures TrackHand([first] + others) == TrackHand([first] + others')
  {
  }
}
