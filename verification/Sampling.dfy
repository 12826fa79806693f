/** Which draw selects which outcome, and how the shots are counted. */
module Sampling {
  import opened ComplexNumbers
  import opened Gates
  import opened Circuits

  lemma {:induction false} FindExactly(cum: seq<real>, p: real, i: nat)
    requires i < |cum|
    ensures Find(cum, p) == i
        <==> (i == |cum| - 1 || cum[i] >= p) && forall j :: 0 <= j < i ==> cum[j] < p
  {
    if i == 0 {
    } else if cum[0] < p {
      FindExactly(cum[1..], p, i - 1);
      assert forall j :: 0 < j < i ==> cum[j] == cum[1..][j - 1];
    } else {
      assert Find(cum, p) == 0;
    }
  }

  /** The probability of the outcomes before i. */
  function Below(s: seq<Complex>, i: nat): real
    requires i <= |s|
  {
    if i == 0 then 0.0 else Below(s, i - 1) + (s[i - 1].re * s[i - 1].re + s[i - 1].im * s[i - 1].im)
  }

  lemma {:induction false} BelowIsSum(s: seq<Complex>, i: nat)
    requires i <= |s|
    ensures Below(s, i) == Sum(Probabilities(s)[..i])
  {
    var u := Probabilities(s);
    if i > 0 {
      BelowIsSum(s, i - 1);
      assert u[..i][..i - 1] == u[..i - 1];
      assert u[i - 1] == Norm2(s[i - 1]);
    } else {
      assert u[..0] == [];
    }
  }

  lemma {:induction false} BelowGrows(s: seq<Complex>, i: nat, j: nat)
    requires i <= j <= |s|
    ensures 0.0 <= Below(s, i) <= Below(s, j)
  {
    if j > i {
      BelowGrows(s, i, j - 1);
    } else if i > 0 {
      BelowGrows(s, i - 1, i - 1);
    }
  }

  /** A draw selects an outcome exactly if it lies above the probability of those before it, and not above that of
      those up to it; draws below the first outcome's select that, and those above all select the last. */
  lemma {:induction false} SelectsExactly(s: seq<Complex>, p: real, i: nat)
    requires i < |s|
    ensures Find(Cumulative(Probabilities(s)), p) == i
        <==> (i == 0 || Below(s, i) < p) && (i == |s| - 1 || p <= Below(s, i + 1))
  {
    var cum := Cumulative(Probabilities(s));
    forall j: nat | j < |s|
      ensures cum[j] == Below(s, j + 1)
    {
      BelowIsSum(s, j + 1);
    }
    FindExactly(cum, p, i);
    forall j: nat | j < i
      ensures cum[j] <= Below(s, i)
    {
      BelowGrows(s, j + 1, i);
    }
    if i > 0 {
      assert cum[i - 1] == Below(s, i);
    }
  }

  /** The shots among the first k whose draw selects outcome i. */
  ghost function ShotsFor(cum: seq<real>, draw: nat -> real, k: nat, i: nat): set<nat>
    requires cum != []
  {
    set j: nat | j < k && Find(cum, draw(j)) == i
  }

  lemma {:induction false} OneShotMore(cum: seq<real>, draw: nat -> real, k: nat, i: nat)
    requires cum != []
    ensures |ShotsFor(cum, draw, k + 1, i)| == |ShotsFor(cum, draw, k, i)| + if Find(cum, draw(k)) == i then 1 else 0
  {
    var before := ShotsFor(cum, draw, k, i);
    if Find(cum, draw(k)) == i {
      assert ShotsFor(cum, draw, k + 1, i) == before + {k};
    } else {
      assert ShotsFor(cum, draw, k + 1, i) == before;
    }
  }

  /** Each outcome is counted once for every shot whose own draw selects it. */
  lemma {:induction false} CountedByDraw(cum: seq<real>, draw: nat -> real, k: nat, i: nat)
    requires cum != []
    ensures var counts := Tally(cum, draw, k); (if i in counts then counts[i] else 0) == |ShotsFor(cum, draw, k, i)|
  {
    if k == 0 {
      assert ShotsFor(cum, draw, 0, i) == {};
    } else {
      CountedByDraw(cum, draw, k - 1, i);
      OneShotMore(cum, draw, k - 1, i);
    }
  }

  /** What sampling a run returns: the counts of as many shots as asked for, or 1024 if none are. */
  lemma {:induction false} SampledExactly(o: Outcome, shots: int, draw: nat -> real, i: nat)
    requires o.State? && o.amplitudes != [] && TotalProbability(o.amplitudes) == 1.0
    ensures var r := Measure(o, shots, draw);
            var n := if shots >= 1 then shots else 1024;
            && r.Counts?
            && (if i in r.counts then r.counts[i] else 0)
               == |ShotsFor(Cumulative(Probabilities(o.amplitudes)), draw, n, i)|
  {
    CountedByDraw(Cumulative(Probabilities(o.amplitudes)), draw, if shots >= 1 then shots else 1024, i);
  }
}
