/** The word-by-word reveal of the philosophy statement
    (`initPhilosophyReveal`, src/main.js).  Each word span carries an
    `is-visible` flag; on every progress update of the statement's scroll
    trigger, word `i` of `n` is marked visible once the progress exceeds
    `i / n`.  No update ever clears a flag. */
module PhilosophyReveal {

  /** The progress word `i` of `n` waits for. */
  function Threshold(i: nat, n: nat): (t: real)
    requires i < n
    ensures 0.0 <= t < 1.0
  {
    (i as real) / (n as real)
  }

  /** A later word never waits for less progress than an earlier one. */
  lemma ThresholdMonotone(i: nat, j: nat, n: nat)
    requires i <= j < n
    ensures Threshold(i, n) <= Threshold(j, n)
  {
    var d := (n as real);
    assert Threshold(j, n) - Threshold(i, n) == ((j - i) as real) / d;
  }

  /** Crossing word `i`'s threshold is the same as `progress * n > i`. */
  lemma ThresholdByProduct(i: nat, n: nat, progress: real)
    requires i < n
    ensures progress > Threshold(i, n) <==> progress * (n as real) > i as real
  {
    var t := Threshold(i, n);
    assert t * (n as real) == i as real;
    if progress > t {
      assert (progress - t) * (n as real) > 0.0;
    }
    if progress * (n as real) > i as real {
      assert (progress - t) * (n as real) > 0.0;
    }
  }

  /** The flags after one update with the given progress. */
  function Revealed(flags: seq<bool>, progress: real): (r: seq<bool>)
    ensures |r| == |flags|
    ensures forall i :: 0 <= i < |flags| && flags[i] ==> r[i]
    ensures forall i :: 0 <= i < |flags| ==>
              (r[i] <==> flags[i] || progress * (|flags| as real) > i as real)
    ensures progress <= 0.0 ==> r == flags
    ensures progress >= 1.0 ==> forall i :: 0 <= i < |r| ==> r[i]
  {
    var r := seq(|flags|, i requires 0 <= i < |flags| => flags[i] || progress > Threshold(i, |flags|));
    forall i | 0 <= i < |flags|
      ensures r[i] <==> flags[i] || progress * (|flags| as real) > i as real
    {
      ThresholdByProduct(i, |flags|, progress);
    }
    r
  }

  /** The visible words form a prefix of the statement. */
  predicate PrefixShaped(flags: seq<bool>) {
    forall i, j :: 0 <= i < j < |flags| && flags[j] ==> flags[i]
  }

  /** No word is visible: the state the page loads in. */
  function Hidden(n: nat): (r: seq<bool>)
    ensures |r| == n && PrefixShaped(r)
    ensures forall i :: 0 <= i < n ==> !r[i]
  {
    seq(n, i => false)
  }

  /** An update keeps the visible words a prefix. */
  lemma RevealedKeepsPrefix(flags: seq<bool>, progress: real)
    requires PrefixShaped(flags)
    ensures PrefixShaped(Revealed(flags, progress))
  {
    var r, n := Revealed(flags, progress), |flags|;
    forall i, j | 0 <= i < j < n && r[j]
      ensures r[i]
    {
      if !flags[j] {
        ThresholdByProduct(j, n, progress);
        ThresholdByProduct(i, n, progress);
        ThresholdMonotone(i, j, n);
      }
    }
  }

  /** The flags after a series of updates, in order. */
  function RevealRun(flags: seq<bool>, progresses: seq<real>): (r: seq<bool>)
    ensures |r| == |flags|
    decreases |progresses|
  {
    if progresses == [] then flags
    else RevealRun(Revealed(flags, progresses[0]), progresses[1..])
  }

  /** Word `i` was passed by some progress value of the series. */
  predicate Reached(progresses: seq<real>, i: nat, n: nat)
    requires i < n
  {
    exists k :: 0 <= k < |progresses| && progresses[k] > Threshold(i, n)
  }

  /** A series of updates never hides a word that was visible. */
  lemma {:induction false} RevealRunGrows(flags: seq<bool>, progresses: seq<real>, i: nat)
    requires i < |flags| && flags[i]
    ensures RevealRun(flags, progresses)[i]
    decreases |progresses|
  {
    if progresses != [] {
      RevealRunGrows(Revealed(flags, progresses[0]), progresses[1..], i);
    }
  }

  /** Starting from any flags, after a series of updates word `i` is visible
      exactly when it was visible already or some update passed its
      threshold. */
  lemma {:induction false} RevealRunExactly(flags: seq<bool>, progresses: seq<real>, i: nat)
    requires i < |flags|
    ensures RevealRun(flags, progresses)[i] <==> flags[i] || Reached(progresses, i, |flags|)
    decreases |progresses|
  {
    var n := |flags|;
    if progresses != [] {
      var next, rest := Revealed(flags, progresses[0]), progresses[1..];
      RevealRunExactly(next, rest, i);
      ThresholdByProduct(i, n, progresses[0]);
      if Reached(rest, i, n) {
        var k :| 0 <= k < |rest| && rest[k] > Threshold(i, n);
        assert progresses[k + 1] == rest[k];
      }
      if Reached(progresses, i, n) && !(progresses[0] > Threshold(i, n)) {
        var k :| 0 <= k < |progresses| && progresses[k] > Threshold(i, n);
        assert k > 0 && rest[k - 1] == progresses[k];
      }
    }
  }

  /** From the page's initial state, word `i` is visible after a series of
      updates exactly when some update passed its threshold. */
  lemma RevealRunFromHidden(n: nat, progresses: seq<real>, i: nat)
    requires i < n
    ensures RevealRun(Hidden(n), progresses)[i] <==> Reached(progresses, i, n)
  {
    RevealRunExactly(Hidden(n), progresses, i);
  }

  /** From the page's initial state, whatever the series of updates, the
      visible words always form a prefix of the statement. */
  lemma {:induction false} RevealRunKeepsPrefix(flags: seq<bool>, progresses: seq<real>)
    requires PrefixShaped(flags)
    ensures PrefixShaped(RevealRun(flags, progresses))
    decreases |progresses|
  {
    if progresses != [] {
      RevealedKeepsPrefix(flags, progresses[0]);
      RevealRunKeepsPrefix(Revealed(flags, progresses[0]), progresses[1..]);
    }
  }

  /** The trigger's `onUpdate`: the `forEach` over the word spans, adding
      `is-visible` to each word whose threshold the progress exceeds. */
  method Reveal(words: array<bool>, progress: real)
    modifies words
    ensures words[..] == Revealed(old(words[..]), progress)
  {
    var n := words.Length;
    var i := 0;
    while i < n
      invariant 0 <= i <= n
      invariant forall k :: 0 <= k < i ==> words[k] == (old(words[k]) || progress > Threshold(k, n))
      invariant forall k :: i <= k < n ==> words[k] == old(words[k])
    {
      var wordProgress := (i as real) / (n as real);
      if progress > wordProgress {
        words[i] := true;
      }
      i := i + 1;
    }
  }
}
