/**
 * The colour-to-digit puzzle (ColorNumberSetter.cs).  On `Start` it draws a digit for the
 * blue, the green and the red buttons in turn, writes each group's digit into every
 * button of the group, and shows the three digits on a colour key.  `GenerateNumToUse`
 * redraws until it gets a digit not used yet, so the three digits are distinct.
 *
 * `Random.Range(1, 4)` is a stream of draws given as a parameter; each draw lies in the
 * range the engine promises, 1 to 3 (the upper bound is exclusive).  Where the source
 * would keep drawing forever, the stream runs out and the model reports no digit.
 * Each button object of a group is modelled by its `ButtonStats` component.
 */
module ColorNumberSetter {
  import opened Wrappers
  import SaveSystem
  import Engine
  import Gameplay

  /** The bounds of `Random.Range(1, 4)`: inclusive below, exclusive above. */
  const RangeMin := 1
  const RangeMax := 4

  /** Every draw lies in the range `Random.Range` returns. */
  predicate InRange(draws: seq<int>)
  {
    forall i :: 0 <= i < |draws| ==> RangeMin <= draws[i] < RangeMax
  }

  /** No value occurs twice. */
  predicate Distinct(s: seq<int>)
  {
    forall i, j :: 0 <= i < j < |s| ==> s[i] != s[j]
  }

  /** The index of the first draw that is not used yet; `|draws|` when there is none. */
  function FirstFresh(used: seq<int>, draws: seq<int>): (j: nat)
    ensures j <= |draws|
    ensures forall k :: 0 <= k < j ==> draws[k] in used
    ensures j < |draws| ==> draws[j] !in used
  {
    if draws == [] || draws[0] !in used then 0 else 1 + FirstFresh(used, draws[1..])
  }

  /** What one `GenerateNumToUse` call returns, with the draws it leaves. */
  function Generate(used: seq<int>, draws: seq<int>): Option<(int, seq<int>)>
  {
    var j := FirstFresh(used, draws);
    if j < |draws| then Some((draws[j], draws[j + 1..])) else None
  }

  /**
   * A returned digit is in range and was not used; the draws left are a suffix of the
   * stream and still in range.  No digit comes back only when every draw was used already.
   */
  lemma GenerateFresh(used: seq<int>, draws: seq<int>)
    requires InRange(draws)
    ensures Generate(used, draws).Some? ==>
      var (v, rest) := Generate(used, draws).value;
      RangeMin <= v < RangeMax && v !in used && InRange(rest) && |rest| < |draws|
    ensures Generate(used, draws).None? <==> forall i :: 0 <= i < |draws| ==> draws[i] in used
  {
    var j := FirstFresh(used, draws);
    if j < |draws| {
      var rest := draws[j + 1..];
      forall i | 0 <= i < |rest|
        ensures RangeMin <= rest[i] < RangeMax
      {
        assert rest[i] == draws[j + 1 + i];
      }
    }
  }

  /** Appending a returned digit keeps the used list duplicate-free. */
  lemma GenerateKeepsDistinct(used: seq<int>, draws: seq<int>)
    requires Distinct(used)
    requires Generate(used, draws).Some?
    ensures Distinct(used + [Generate(used, draws).value.0])
  {
  }

  /**
   * Once all three digits are used, no draw is fresh: the source's loop can end only while
   * fewer than three digits are used.
   */
  lemma ExhaustedNeverReturns(used: seq<int>, draws: seq<int>)
    requires Distinct(used) && InRange(used) && |used| >= 3
    requires InRange(draws)
    ensures Generate(used, draws).None?
  {
    forall i | 0 <= i < |draws|
      ensures draws[i] in used
    {
      assert draws[i] == used[0] || draws[i] == used[1] || draws[i] == used[2];
    }
    GenerateFresh(used, draws);
  }

  /** While fewer than three digits are used, some digit in range is still fresh. */
  lemma FreshDigitRemains(used: seq<int>)
    requires |used| < 3
    ensures exists d :: RangeMin <= d < RangeMax && d !in used
  {
    if |used| == 0 {
      assert 1 !in used;
    } else if |used| == 1 {
      assert (if used[0] == 1 then 2 else 1) !in used;
    } else {
      var d := if 1 != used[0] && 1 != used[1] then 1 else if 2 != used[0] && 2 != used[1] then 2 else 3;
      assert d !in used;
    }
  }

  /**
   * The digits that `n` further calls return, starting from `used`, in order; the calls
   * stop at the first one that finds no fresh draw.
   */
  function DigitsFrom(used: seq<int>, draws: seq<int>, n: nat): (ds: seq<int>)
    ensures |ds| <= n
    decreases n
  {
    if n == 0 then []
    else match Generate(used, draws)
      case None => []
      case Some((v, rest)) => [v] + DigitsFrom(used + [v], rest, n - 1)
  }

  /** One step of `DigitsFrom`. */
  lemma DigitsFromUnfold(used: seq<int>, draws: seq<int>, n: nat)
    requires n > 0
    ensures Generate(used, draws).None? ==> DigitsFrom(used, draws, n) == []
    ensures Generate(used, draws).Some? ==>
      var (v, rest) := Generate(used, draws).value;
      DigitsFrom(used, draws, n) == [v] + DigitsFrom(used + [v], rest, n - 1)
  {
  }

  /** The blue, green and red digits `Start` draws, as far as the draws reach. */
  function Digits(draws: seq<int>): seq<int>
  {
    DigitsFrom([], draws, 3)
  }

  /** Every call appends a fresh digit in range, so the used list stays duplicate-free. */
  lemma {:induction false} DigitsFromDistinct(used: seq<int>, draws: seq<int>, n: nat)
    requires Distinct(used) && InRange(used) && InRange(draws)
    ensures Distinct(used + DigitsFrom(used, draws, n)) && InRange(used + DigitsFrom(used, draws, n))
    decreases n
  {
    if n > 0 && Generate(used, draws).Some? {
      var (v, rest) := Generate(used, draws).value;
      GenerateFresh(used, draws);
      var used' := used + [v];
      assert InRange(used');
      DigitsFromDistinct(used', rest, n - 1);
      assert used + DigitsFrom(used, draws, n) == used' + DigitsFrom(used', rest, n - 1);
    }
  }

  /**
   * When `Start` gets all three digits, they are distinct and together are exactly 1, 2
   * and 3.
   */
  lemma DigitsArePermutation(draws: seq<int>)
    requires InRange(draws)
    requires |Digits(draws)| == 3
    ensures Distinct(Digits(draws))
    ensures {Digits(draws)[0], Digits(draws)[1], Digits(draws)[2]} == {1, 2, 3}
  {
    var ds := Digits(draws);
    DigitsFromDistinct([], draws, 3);
    assert [] + ds == ds;
    assert Distinct(ds) && InRange(ds);
    var a, b, c := ds[0], ds[1], ds[2];
    assert RangeMin <= a < RangeMax && RangeMin <= b < RangeMax && RangeMin <= c < RangeMax;
    assert a != b && a != c && b != c;
    ThreeDistinctDigits(a, b, c);
  }

  lemma ThreeDistinctDigits(a: int, b: int, c: int)
    requires RangeMin <= a < RangeMax && RangeMin <= b < RangeMax && RangeMin <= c < RangeMax
    requires a != b && a != c && b != c
    ensures {a, b, c} == {1, 2, 3}
  {
    if a == 1 {
      assert b == 2 || b == 3;
    } else if a == 2 {
      assert b == 1 || b == 3;
    }
  }

  /** The colour key's text. */
  function ColorKey(blue: int, green: int, red: int): string
  {
    "Blue = " + SaveSystem.IntToString(blue) + " \nGreen = " + SaveSystem.IntToString(green) +
    " \nRed = " + SaveSystem.IntToString(red)
  }

  /** For single digits, each digit sits at a fixed place in the key. */
  lemma ColorKeyLayout(blue: int, green: int, red: int)
    requires 0 <= blue < 10 && 0 <= green < 10 && 0 <= red < 10
    ensures |ColorKey(blue, green, red)| == 28
    ensures ColorKey(blue, green, red)[7] == SaveSystem.Digit(blue)
    ensures ColorKey(blue, green, red)[18] == SaveSystem.Digit(green)
    ensures ColorKey(blue, green, red)[27] == SaveSystem.Digit(red)
  {
    assert SaveSystem.IntToString(blue) == [SaveSystem.Digit(blue)];
    assert SaveSystem.IntToString(green) == [SaveSystem.Digit(green)];
    assert SaveSystem.IntToString(red) == [SaveSystem.Digit(red)];
  }

  /** The key shows which digit each colour has: different assignments give different keys. */
  lemma ColorKeyInjective(b: int, g: int, r: int, b': int, g': int, r': int)
    requires 0 <= b < 10 && 0 <= g < 10 && 0 <= r < 10
    requires 0 <= b' < 10 && 0 <= g' < 10 && 0 <= r' < 10
    requires ColorKey(b, g, r) == ColorKey(b', g', r')
    ensures b == b' && g == g' && r == r'
  {
    ColorKeyLayout(b, g, r);
    ColorKeyLayout(b', g', r');
  }

  /** The objects of a group, as a set. */
  function Objects(group: seq<Gameplay.ButtonStats>): set<Gameplay.ButtonStats>
  {
    set o | o in group
  }

  class ColorNumberSetter {
    const blueObjs: seq<Gameplay.ButtonStats>
    const greenObjs: seq<Gameplay.ButtonStats>
    const redObjs: seq<Gameplay.ButtonStats>
    const colorKey: Engine.Text
    var usedNumbers: seq<int>

    constructor (blueObjs: seq<Gameplay.ButtonStats>, greenObjs: seq<Gameplay.ButtonStats>,
                 redObjs: seq<Gameplay.ButtonStats>, colorKey: Engine.Text)
      ensures this.blueObjs == blueObjs && this.greenObjs == greenObjs && this.redObjs == redObjs
      ensures this.colorKey == colorKey && usedNumbers == []
    {
      this.blueObjs, this.greenObjs, this.redObjs := blueObjs, greenObjs, redObjs;
      this.colorKey := colorKey;
      usedNumbers := [];
    }

    /**
     * The value a button holds after `Start` drew `digits`: a later group's assignment
     * overwrites an earlier one for an object listed in both, and a group whose digit was
     * never drawn is not written.
     */
    function ValueAfterStart(o: Gameplay.ButtonStats, prior: int, digits: seq<int>): int
    {
      if |digits| >= 3 && o in redObjs then digits[2]
      else if |digits| >= 2 && o in greenObjs then digits[1]
      else if |digits| >= 1 && o in blueObjs then digits[0]
      else prior
    }

    /**
     * `GenerateNumToUse`: skips the draws already used, appends the first fresh one to the
     * used list and returns it; no digit when the draws run out.
     */
    method GenerateNumToUse(draws: seq<int>) returns (value: Option<int>, rest: seq<int>)
      modifies this`usedNumbers
      ensures match Generate(old(usedNumbers), draws)
        case None => value == None && usedNumbers == old(usedNumbers)
        case Some((v, r)) => value == Some(v) && rest == r && usedNumbers == old(usedNumbers) + [v]
    {
      var i := 0;
      while i < |draws| && draws[i] in usedNumbers
        invariant i <= |draws|
        invariant forall k :: 0 <= k < i ==> draws[k] in usedNumbers
      {
        i := i + 1;
      }
      assert i == FirstFresh(usedNumbers, draws);
      if i < |draws| {
        value, rest := Some(draws[i]), draws[i + 1..];
        usedNumbers := usedNumbers + [draws[i]];
      } else {
        value, rest := None, [];
      }
    }

    /** Writes `value` into every button of a group. */
    method AssignGroup(group: seq<Gameplay.ButtonStats>, value: int)
      modifies Objects(group)`buttonValue
      ensures forall o :: o in group ==> o.buttonValue == value
    {
      for i := 0 to |group|
        invariant forall k :: 0 <= k < i ==> group[k].buttonValue == value
      {
        group[i].buttonValue := value;
      }
    }

    /**
     * `Start`: the used list starts empty and ends holding the digits drawn; the colour
     * key is written once all three are drawn.
     */
    method Start(draws: seq<int>) returns (ok: bool)
      modifies this`usedNumbers, colorKey`text
      modifies Objects(blueObjs)`buttonValue, Objects(greenObjs)`buttonValue, Objects(redObjs)`buttonValue
      ensures usedNumbers == Digits(draws)
      ensures ok <==> |usedNumbers| == 3
      ensures colorKey.text == if ok then ColorKey(usedNumbers[0], usedNumbers[1], usedNumbers[2]) else old(colorKey.text)
      ensures forall o :: o in Objects(blueObjs) + Objects(greenObjs) + Objects(redObjs) ==>
        o.buttonValue == ValueAfterStart(o, old(o.buttonValue), usedNumbers)
    {
      usedNumbers := [];
      var blue, rest := GenerateNumToUse(draws);
      DigitsFromUnfold([], draws, 3);
      if blue.None? {
        return false;
      }
      var b := blue.value;
      assert usedNumbers == [b];
      AssignGroup(blueObjs, b);
      var green, rest' := GenerateNumToUse(rest);
      DigitsFromUnfold([b], rest, 2);
      if green.None? {
        return false;
      }
      var g := green.value;
      assert usedNumbers == [b, g];
      AssignGroup(greenObjs, g);
      var red, rest'' := GenerateNumToUse(rest');
      DigitsFromUnfold([b, g], rest', 1);
      if red.None? {
        return false;
      }
      var r := red.value;
      assert DigitsFrom([b, g], rest', 1) == [r];
      AssignGroup(redObjs, r);
      colorKey.text := ColorKey(b, g, r);
      ok := true;
    }
  }
}
