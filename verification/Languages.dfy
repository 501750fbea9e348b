/** The language statistics of a GitHub repository: byte counts become percentages rounded to two
    decimals. Arithmetic is exact; the order in which a Go map is iterated is arbitrary. */
module Languages {

  /** Half away from zero, as `math.Round` does. */
  function Round(x: real): int {
    if x >= 0.0 then (x + 0.5).Floor else -((0.5 - x).Floor)
  }

  function Share(count: real, total: real): real
    requires total != 0.0
  {
    count / total
  }

  function Percentage(count: real, total: real): real
    requires total != 0.0
  {
    Round(Share(count, total) * 10000.0) as real / 100.0
  }

  /** The sum of the values of some keys, in whatever order. */
  ghost function Sum(counts: map<string, real>, keys: set<string>): real
    requires keys <= counts.Keys
  {
    if keys == {} then 0.0
    else
      var key :| key in keys;
      counts[key] + Sum(counts, keys - {key})
  }

  ghost function Total(counts: map<string, real>): real {
    Sum(counts, counts.Keys)
  }

  lemma {:induction false} SumWithout(counts: map<string, real>, keys: set<string>, key: string)
    requires keys <= counts.Keys && key in keys
    ensures Sum(counts, keys) == counts[key] + Sum(counts, keys - {key})
  {
    var first :| first in keys && Sum(counts, keys) == counts[first] + Sum(counts, keys - {first});
    if first == key {
    } else {
      SumWithout(counts, keys - {first}, key);
      assert keys - {first} - {key} == keys - {key} - {first};
      SumWithout(counts, keys - {key}, first);
    }
  }

  method ComputeLanguagePercentages(raw: map<string, real>) returns (result: map<string, real>)
    ensures Total(raw) == 0.0 ==> result == map[]
    ensures Total(raw) != 0.0 ==> PercentagesOf(result, raw, Total(raw))
  {
    hide Percentage;
    var total := 0.0;
    var todo := raw.Keys;
    while todo != {}
      invariant todo <= raw.Keys
      invariant total + Sum(raw, todo) == Total(raw)
    {
      var lang :| lang in todo;
      SumWithout(raw, todo, lang);
      total := total + raw[lang];
      todo := todo - {lang};
    }
    if total == 0.0 {
      return map[];
    }
    hide Total, Sum;
    result := map[];
    var rest := raw.Keys;
    while rest != {}
      invariant rest <= raw.Keys && result.Keys == raw.Keys - rest
      invariant forall lang | lang in result :: result[lang] == Percentage(raw[lang], total)
    {
      var lang :| lang in rest;
      result := result[lang := Percentage(raw[lang], total)];
      rest := rest - {lang};
    }
  }

  predicate Nonnegative(counts: map<string, real>) {
    forall lang | lang in counts :: counts[lang] >= 0.0
  }

  ghost predicate PercentagesOf(result: map<string, real>, raw: map<string, real>, total: real)
    requires total != 0.0
  {
    && result.Keys == raw.Keys
    && forall lang | lang in raw :: result[lang] == Percentage(raw[lang], total)
  }

  /** Rounding moves a value by at most half, and a half away from zero. */
  lemma RoundIsNearest(x: real)
    ensures x - 0.5 <= Round(x) as real <= x + 0.5
    ensures x >= 0.0 ==> x < Round(x) as real + 0.5
    ensures x <= 0.0 ==> Round(x) as real - 0.5 < x
  {
  }

  lemma RoundIsMonotone(x: real, y: real)
    requires x <= y
    ensures Round(x) <= Round(y)
  {
  }

  lemma ShareIsMonotone(a: real, b: real, total: real)
    requires a <= b && total > 0.0
    ensures Share(a, total) <= Share(b, total)
  {
    assert b / total == a / total + (b - a) / total;
  }

  lemma SharesAdd(a: real, b: real, total: real)
    requires total > 0.0
    ensures Share(a + b, total) == Share(a, total) + Share(b, total)
  {
  }

  lemma ShareOfAll(total: real)
    requires total > 0.0
    ensures Share(total, total) == 1.0 && Share(0.0, total) == 0.0
  {
    var q := total / total;
    assert (q - 1.0) * total == 0.0;
  }

  /** A percentage is its exact value rounded to the nearest hundredth. */
  lemma PercentageIsNear(count: real, total: real)
    requires total > 0.0
    ensures Share(count, total) * 100.0 - 0.005 <= Percentage(count, total) <= Share(count, total) * 100.0 + 0.005
  {
    RoundIsNearest(Share(count, total) * 10000.0);
    hide Share, Round;
  }

  lemma PercentageIsMonotone(a: real, b: real, total: real)
    requires a <= b && total > 0.0
    ensures Percentage(a, total) <= Percentage(b, total)
  {
    ShareIsMonotone(a, b, total);
    hide Share;
    RoundIsMonotone(Share(a, total) * 10000.0, Share(b, total) * 10000.0);
  }

  lemma NoCountExceedsTotal(raw: map<string, real>, lang: string)
    requires Nonnegative(raw) && lang in raw
    ensures raw[lang] <= Total(raw)
  {
    SumWithout(raw, raw.Keys, lang);
    SumIsNonnegative(raw, raw.Keys - {lang});
  }

  lemma {:induction false} SumIsNonnegative(counts: map<string, real>, keys: set<string>)
    requires Nonnegative(counts) && keys <= counts.Keys
    ensures Sum(counts, keys) >= 0.0
  {
    if keys == {} {
    } else {
      var key :| key in keys;
      SumWithout(counts, keys, key);
      SumIsNonnegative(counts, keys - {key});
    }
  }

  /** Between 0 and 100, in the order of the counts, each within half a hundredth of the exact value. */
  lemma EachPercentage(raw: map<string, real>, lang: string, other: string)
    requires Nonnegative(raw) && Total(raw) > 0.0 && lang in raw && other in raw
    ensures 0.0 <= Percentage(raw[lang], Total(raw)) <= 100.0
    ensures raw[lang] <= raw[other] ==> Percentage(raw[lang], Total(raw)) <= Percentage(raw[other], Total(raw))
    ensures Share(raw[lang], Total(raw)) * 100.0 - 0.005 <= Percentage(raw[lang], Total(raw))
         <= Share(raw[lang], Total(raw)) * 100.0 + 0.005
  {
    var total := Total(raw);
    NoCountExceedsTotal(raw, lang);
    PercentageIsMonotone(0.0, raw[lang], total);
    PercentageIsMonotone(raw[lang], total, total);
    ShareOfAll(total);
    hide Share;
    if raw[lang] <= raw[other] {
      PercentageIsMonotone(raw[lang], raw[other], total);
    }
    PercentageIsNear(raw[lang], total);
  }

  /** The percentages of n languages add up to 100 within n times half a hundredth. */
  lemma SumIsNearHundred(raw: map<string, real>, result: map<string, real>)
    requires Total(raw) > 0.0 && PercentagesOf(result, raw, Total(raw))
    ensures 100.0 - |raw| as real * 0.005 <= Total(result) <= 100.0 + |raw| as real * 0.005
  {
    SumIsNearShare(raw, result, raw.Keys, Total(raw));
    ShareOfAll(Total(raw));
    hide Share, Percentage, Sum;
    assert |raw.Keys| == |raw|;
  }

  lemma {:induction false} SumIsNearShare(raw: map<string, real>, result: map<string, real>, keys: set<string>,
                                          total: real)
    requires total > 0.0 && PercentagesOf(result, raw, total) && keys <= raw.Keys
    ensures Share(Sum(raw, keys), total) * 100.0 - |keys| as real * 0.005 <= Sum(result, keys)
         <= Share(Sum(raw, keys), total) * 100.0 + |keys| as real * 0.005
  {
    if keys == {} {
      ShareOfAll(total);
    } else {
      var lang :| lang in keys;
      var others := keys - {lang};
      SumIsNearShare(raw, result, others, total);
      SumWithout(raw, keys, lang);
      SumWithout(result, keys, lang);
      SharesAdd(raw[lang], Sum(raw, others), total);
      PercentageIsNear(raw[lang], total);
      hide Percentage, Share, Sum;
      ErrorsAdd(Share(raw[lang], total), Share(Sum(raw, others), total), result[lang], Sum(result, others), |others|);
    }
  }

  /** One more rounded share adds at most half a hundredth to the error of the sum. */
  lemma ErrorsAdd(share: real, shares: real, rounded: real, sum: real, n: nat)
    requires share * 100.0 - 0.005 <= rounded <= share * 100.0 + 0.005
    requires shares * 100.0 - n as real * 0.005 <= sum <= shares * 100.0 + n as real * 0.005
    ensures (share + shares) * 100.0 - (n + 1) as real * 0.005 <= rounded + sum
         <= (share + shares) * 100.0 + (n + 1) as real * 0.005
  {
  }

  /** The bound is not idle: three equal counts miss 100 by a hundredth. */
  lemma ThirdsMissHundred()
    ensures var raw := map["go" := 1.0, "c" := 1.0, "js" := 1.0];
            forall result | PercentagesOf(result, raw, 3.0) :: Total(raw) == 3.0 && Total(result) == 99.99
  {
    var raw := map["go" := 1.0, "c" := 1.0, "js" := 1.0];
    ThreeValues(raw);
    assert Percentage(1.0, 3.0) == 33.33;
    forall result | PercentagesOf(result, raw, 3.0)
      ensures Total(result) == 99.99
    {
      ThreeValues(result);
    }
  }

  lemma ThreeValues(m: map<string, real>)
    requires m.Keys == {"go", "c", "js"}
    ensures Total(m) == m["go"] + m["c"] + m["js"]
  {
    SumWithout(m, m.Keys, "go");
    assert m.Keys - {"go"} == {"c", "js"};
    SumWithout(m, {"c", "js"}, "c");
    assert {"c", "js"} - {"c"} == {"js"};
    SumWithout(m, {"js"}, "js");
    assert {"js"} - {"js"} == {};
  }
}
