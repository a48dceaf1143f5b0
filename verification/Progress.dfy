/** The progress events of one print attempt (`Session._print_page`). */
module Progress {
  import opened Bytes

  /** `int(100 * rows / height) // 5 * 5`. */
  function Percent(rows: nat, height: nat): nat {
    if height == 0 then 100 else (100 * rows / height) / 5 * 5
  }

  lemma PercentMonotone(a: nat, b: nat, height: nat)
    requires a <= b <= height
    ensures Percent(a, height) <= Percent(b, height) <= 100
    ensures Percent(b, height) % 5 == 0
    ensures b == height ==> Percent(b, height) == 100
  {
    if height > 0 {
      DivMonotone(100 * a, 100 * b, height);
      DivMonotone(100 * b, 100 * height, height);
      DivIs(100 * height, height, 100);
    }
  }

  /** The percentage is the largest multiple of five that the share of the rows sent has reached. */
  lemma PercentExact(rows: nat, height: nat)
    requires rows <= height && height > 0
    ensures var p := Percent(rows, height);
            p % 5 == 0 && p * height <= 100 * rows < (p + 5) * height
  {
    var q := 100 * rows / height;
    var p := q / 5 * 5;
    assert 100 * rows == q * height + 100 * rows % height;
    assert p <= q < p + 5;
    MulMonotone(p, q, height);
    MulMonotone(q + 1, p + 5, height);
    assert (q + 1) * height == q * height + height;
  }

  lemma DivMonotone(a: nat, b: nat, d: nat)
    requires a <= b && d >= 1
    ensures a / d <= b / d
  {
    var qa, qb := a / d, b / d;
    assert a == qa * d + a % d && b == qb * d + b % d;
    assert (qb + 1) * d == qb * d + d;
    if qb + 1 <= qa {
      MulMonotone(qb + 1, qa, d);
    }
  }

  ghost predicate Increasing(s: seq<int>) {
    forall i, j :: 0 <= i < j < |s| ==> s[i] < s[j]
  }

  class Reporter {
    var last: int
    var pushed: seq<int>

    ghost predicate Valid()
      reads this
    {
      && Increasing(pushed)
      && (forall x :: x in pushed ==> 0 <= x <= 100 && x % 5 == 0)
      && (if pushed == [] then last == -1 else last == pushed[|pushed| - 1])
    }

    constructor ()
      ensures Valid() && pushed == []
    {
      last := -1;
      pushed := [];
    }

    /** One event per new multiple of five, as long as the row count never falls. */
    method OnProgress(rowsSent: nat, height: nat)
      requires Valid() && rowsSent <= height && last <= Percent(rowsSent, height)
      modifies this
      ensures Valid() && last == Percent(rowsSent, height)
      ensures pushed == old(pushed) || pushed == old(pushed) + [last]
    {
      PercentMonotone(rowsSent, rowsSent, height);
      var percent := Percent(rowsSent, height);
      if percent != last {
        last := percent;
        pushed := pushed + [percent];
      }
    }

    /** The closing event of a completed attempt, if the transfer did not already push it. */
    method Finish()
      requires Valid()
      modifies this
      ensures Increasing(pushed) && pushed != [] && pushed[|pushed| - 1] == 100
      ensures pushed == if old(last) == 100 then old(pushed) else old(pushed) + [100]
    {
      if last != 100 {
        var end := |pushed| - 1;
        assert forall i :: 0 <= i < end ==> pushed[i] < pushed[end];
        assert end >= 0 ==> pushed[end] in pushed;
        pushed := pushed + [100];
      }
    }
  }
}
