/** Dataset merger: the synthesized records are appended to the training list
    and the whole list is then shuffled in place. */
module Merger {

  /** `random.shuffle`: for i from the last position down to 1, swap position i
      with a position j in [0, i] drawn at random. `draw(i)` stands for that
      draw; only its remainder modulo i + 1 is used. */
  method Shuffle<T>(a: array<T>, draw: nat -> nat)
    modifies a
    ensures multiset(a[..]) == multiset(old(a[..]))
  {
    var i := a.Length - 1;
    while i >= 1
      invariant -1 <= i < a.Length
      invariant multiset(a[..]) == multiset(old(a[..]))
      decreases i
    {
      var j := draw(i) % (i + 1);
      a[i], a[j] := a[j], a[i];
      i := i - 1;
    }
  }
}
