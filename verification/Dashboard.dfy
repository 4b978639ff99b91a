/** The computations of `portfolio/src/components/AnalyticsDashboard.jsx`:
    duration text, the variant toggle, and the ranked section-popularity
    rows with their bar widths. Rendering itself is not modelled. */
module Dashboard {
  import opened Wrappers
  import opened Sessions
  import opened Aggregates
  import opened Analytics
  import opened ABTest

  // ---------------------------------------------------------------------
  // Decimal text
  // ---------------------------------------------------------------------

  predicate IsDigit(c: char) { '0' <= c <= '9' }

  predicate AllDigits(s: string)
  {
    forall i :: 0 <= i < |s| ==> IsDigit(s[i])
  }

  function DigitChar(d: nat): (c: char)
    requires d < 10
    ensures IsDigit(c) && c as int - '0' as int == d
  {
    ('0' as int + d) as char
  }

  /** A non-negative integer in a template literal: its decimal digits,
      with a leading zero only for zero itself. */
  function NatToString(n: nat): (r: string)
    ensures |r| >= 1 && AllDigits(r)
    ensures r[0] == '0' <==> n == 0
  {
    if n < 10 then [DigitChar(n)] else NatToString(n / 10) + [DigitChar(n % 10)]
  }

  /** An integer in a template literal. */
  function IntToString(n: int): (r: string)
    ensures |r| >= 1
    ensures n >= 0 ==> r == NatToString(n)
    ensures n < 0 ==> r[0] == '-' && r[1..] == NatToString(-n)
  {
    if n < 0 then "-" + NatToString(-n) else NatToString(n)
  }

  /** The value of a run of decimal digits. */
  function DigitsValue(s: string): nat
    requires AllDigits(s)
  {
    if |s| == 0 then 0 else DigitsValue(s[..|s| - 1]) * 10 + (s[|s| - 1] as int - '0' as int)
  }

  /** Reading a number's digits back gives the number. */
  lemma {:induction false} DigitsRoundTrip(n: nat)
    ensures DigitsValue(NatToString(n)) == n
  {
    if n >= 10 {
      var s := NatToString(n);
      assert s[..|s| - 1] == NatToString(n / 10);
      DigitsRoundTrip(n / 10);
    }
  }

  /** The text of an integer written by `IntToString`, read back. */
  function ParseInt(t: string): Option<int>
  {
    if |t| > 1 && t[0] == '-' && AllDigits(t[1..]) then Some(0 - DigitsValue(t[1..]))
    else if |t| > 0 && AllDigits(t) then Some(DigitsValue(t))
    else None
  }

  /** The first position of `c` in `s`. */
  function IndexOf(s: string, c: char): (r: Option<nat>)
    ensures r.Some? ==> r.value < |s| && s[r.value] == c
    ensures r.Some? ==> forall j :: 0 <= j < r.value ==> s[j] != c
    ensures r.None? <==> c !in s
  {
    if |s| == 0 then None
    else if s[0] == c then Some(0)
    else match IndexOf(s[1..], c)
      case None => None
      case Some(k) => Some(k + 1)
  }

  // ---------------------------------------------------------------------
  // formatDuration
  // ---------------------------------------------------------------------

  /** `formatDuration(seconds)`: "<s>s" below a minute, otherwise
      "<m>m <r>s" with whole minutes and the remaining seconds. */
  function FormatDuration(seconds: int): (text: string)
    ensures |text| >= 2 && text[|text| - 1] == 's'
    ensures 'm' in text <==> seconds >= 60
  {
    if seconds < 60 then IntToString(seconds) + "s"
    else NatToString(seconds / 60) + "m " + NatToString(seconds % 60) + "s"
  }

  /** Reads a text of the form `FormatDuration` writes back to seconds. */
  function ParseDuration(text: string): Option<int>
  {
    if |text| == 0 || text[|text| - 1] != 's' then None else ParseBody(text[..|text| - 1])
  }

  /** The text before the final 's': seconds alone, or minutes up to the
      first 'm' and the rest. */
  function ParseBody(body: string): Option<int>
  {
    match IndexOf(body, 'm')
    case None => ParseInt(body)
    case Some(k) => ParseMinutes(body[..k], body[k + 1..])
  }

  /** Minutes, then a space and the remaining seconds. */
  function ParseMinutes(minutes: string, rest: string): Option<int>
  {
    if |minutes| > 0 && AllDigits(minutes) && |rest| > 1 && rest[0] == ' ' && AllDigits(rest[1..])
    then Some(DigitsValue(minutes) * 60 + DigitsValue(rest[1..]))
    else None
  }

  /** Every duration text reads back as the seconds it was made from: the
      minutes-and-seconds form loses nothing. */
  lemma FormatDurationRoundTrip(seconds: int)
    ensures ParseDuration(FormatDuration(seconds)) == Some(seconds)
  {
    if seconds < 60 {
      ShortDurationRoundTrip(seconds);
    } else {
      LongDurationRoundTrip(seconds);
    }
  }

  lemma ShortDurationRoundTrip(seconds: int)
    requires seconds < 60
    ensures ParseDuration(FormatDuration(seconds)) == Some(seconds)
  {
    var text := FormatDuration(seconds);
    var body := IntToString(seconds);
    assert text[..|text| - 1] == body;
    assert 'm' !in body by {
      assert forall j :: 0 <= j < |body| ==> body[j] == '-' || IsDigit(body[j]);
    }
    assert ParseDuration(text) == ParseInt(body);
    IntRoundTrip(seconds);
  }

  /** Reading an integer's text back gives the integer. */
  lemma IntRoundTrip(n: int)
    ensures ParseInt(IntToString(n)) == Some(n)
  {
    var t := IntToString(n);
    if n < 0 {
      DigitsRoundTrip(-n);
      assert |t| > 1 && t[0] == '-' && AllDigits(t[1..]);
    } else {
      DigitsRoundTrip(n);
      assert t[0] != '-';
    }
  }

  lemma LongDurationRoundTrip(seconds: int)
    requires seconds >= 60
    ensures ParseDuration(FormatDuration(seconds)) == Some(seconds)
  {
    var m := NatToString(seconds / 60);
    var r := NatToString(seconds % 60);
    assert FormatDuration(seconds) == m + "m " + r + "s";
    DigitsRoundTrip(seconds / 60);
    DigitsRoundTrip(seconds % 60);
    assert ParseMinutes(m, " " + r) == Some(seconds) by {
      assert (" " + r)[1..] == r;
    }
    MinutesText(m, r, seconds);
  }

  /** A text "<digits>m <rest>s" reads as its minutes and rest. */
  lemma MinutesText(m: string, r: string, v: int)
    requires AllDigits(m) && ParseMinutes(m, " " + r) == Some(v)
    ensures ParseDuration(m + "m " + r + "s") == Some(v)
  {
    MinutesBody(m, r);
    StripUnit(m + "m " + r);
  }

  /** The final 's' is stripped before the body is read. */
  lemma StripUnit(body: string)
    ensures ParseDuration(body + "s") == ParseBody(body)
  {
    assert (body + "s")[..|body|] == body;
  }

  /** A body "<digits>m <rest>" is read as minutes and rest. */
  lemma MinutesBody(m: string, r: string)
    requires AllDigits(m)
    ensures ParseBody(m + "m " + r) == ParseMinutes(m, " " + r)
  {
    MarkerAfterDigits(m, " " + r);
    var body := m + "m " + r;
    assert body == m + "m" + (" " + r);
    assert body[..|m|] == m && body[|m| + 1..] == " " + r;
  }

  /** The first 'm' after a run of digits is the one that ends it. */
  lemma MarkerAfterDigits(m: string, rest: string)
    requires AllDigits(m)
    ensures IndexOf(m + "m" + rest, 'm') == Some(|m|)
  {
    var body := m + "m" + rest;
    assert body[|m|] == 'm';
    assert forall j :: 0 <= j < |m| ==> body[j] == m[j];
  }

  /** The per-variant duration: `formatDuration(Math.round(stats.avgDuration))`. */
  function VariantDurationText(stats: VariantStats): (text: string)
    ensures ParseDuration(text) == Some(Round(stats.avgDuration))
  {
    FormatDurationRoundTrip(Round(stats.avgDuration));
    FormatDuration(Round(stats.avgDuration))
  }

  // ---------------------------------------------------------------------
  // handleVariantSwitch
  // ---------------------------------------------------------------------

  /** The variant the switch button asks for: indigo when showing blue,
      blue otherwise. */
  function ToggleVariant(current: Option<string>): (next: string)
    ensures next in VariantValues && Accepts(next)
    ensures next == "indigo" <==> current == Some("blue")
  {
    VariantValuesAccepted();
    if current == Some("blue") then "indigo" else "blue"
  }

  /** Two presses of the switch return to the variant shown first. */
  lemma ToggleTwice(v: string)
    requires v in VariantValues
    ensures ToggleVariant(Some(ToggleVariant(Some(v)))) == v
  {
  }

  /** `handleVariantSwitch()`: switches the provider to the other variant,
      which the guard always accepts. */
  method HandleVariantSwitch(p: Provider, env: Env)
    modifies p, p.browser
    ensures p.variant == Some(ToggleVariant(old(p.variant))) && p.browser.abVariant == p.variant
    ensures p.colorScheme.Some? && p.colorScheme == SchemeOf(p.variant.value)
    ensures p.browser.sessionId == Some(CurrentId(old(p.browser.sessionId), env.freshSessionId))
    ensures p.browser.stored == EventTracked(old(p.browser.stored), p.browser.sessionId.value,
                                             "ab_test_manual_switch", map["variant" := p.variant.value], env.now)
    ensures p.browser.visitorId == old(p.browser.visitorId)
  {
    var newVariant := ToggleVariant(p.variant);
    p.SwitchVariant(newVariant, env);
  }

  // ---------------------------------------------------------------------
  // Section popularity rows
  // ---------------------------------------------------------------------

  /** One row of the popularity list: a section and its visit count. */
  type Row = (string, nat)

  predicate ByCountDescending(rows: seq<Row>)
  {
    forall i, j :: 0 <= i < j < |rows| ==> rows[i].1 >= rows[j].1
  }

  /** The rows with count `c`, in order. */
  function WithCount(rows: seq<Row>, c: nat): seq<Row>
  {
    if |rows| == 0 then []
    else (if rows[0].1 == c then [rows[0]] else []) + WithCount(rows[1..], c)
  }

  /** Places `row` before the first row of `rows` whose count is not larger. */
  function Insert(row: Row, rows: seq<Row>): (r: seq<Row>)
    requires ByCountDescending(rows)
    ensures |r| == |rows| + 1
    ensures r[0] == row || (|rows| > 0 && r[0] == rows[0])
    ensures ByCountDescending(r)
    ensures multiset(r) == multiset(rows) + multiset{row}
  {
    if |rows| == 0 || row.1 >= rows[0].1 then [row] + rows
    else
      var tail := Insert(row, rows[1..]);
      assert forall k :: 0 <= k < |tail| ==> tail[k].1 <= tail[0].1 <= rows[0].1;
      assert rows == [rows[0]] + rows[1..];
      [rows[0]] + tail
  }

  /** `.sort(([, a], [, b]) => b - a)`: the rows by descending count. */
  function RankByCount(rows: seq<Row>): (r: seq<Row>)
    ensures ByCountDescending(r)
    ensures multiset(r) == multiset(rows)
  {
    if |rows| == 0 then [] else
      assert rows == [rows[0]] + rows[1..];
      Insert(rows[0], RankByCount(rows[1..]))
  }

  lemma {:induction false} InsertKeepsTies(row: Row, rows: seq<Row>, c: nat)
    requires ByCountDescending(rows)
    ensures WithCount(Insert(row, rows), c) == (if row.1 == c then [row] else []) + WithCount(rows, c)
  {
    if |rows| == 0 || row.1 >= rows[0].1 {
      assert ([row] + rows)[1..] == rows;
    } else {
      InsertKeepsTies(row, rows[1..], c);
      var tail := Insert(row, rows[1..]);
      assert ([rows[0]] + tail)[1..] == tail;
    }
  }

  /** The sort is stable: rows with equal counts keep their order. */
  lemma {:induction false} RankByCountStable(rows: seq<Row>, c: nat)
    ensures WithCount(RankByCount(rows), c) == WithCount(rows, c)
  {
    if |rows| > 0 {
      RankByCountStable(rows[1..], c);
      InsertKeepsTies(rows[0], RankByCount(rows[1..]), c);
    }
  }

  /** `Object.entries(sectionPopularity)`, listing the keys in `keys` order. */
  function Entries(pop: map<string, nat>, keys: seq<string>): (rows: seq<Row>)
    requires forall k :: k in keys ==> k in pop
    ensures |rows| == |keys|
    ensures forall i :: 0 <= i < |keys| ==> rows[i] == (keys[i], pop[keys[i]])
  {
    if |keys| == 0 then [] else [(keys[0], pop[keys[0]])] + Entries(pop, keys[1..])
  }

  /** The rows of the popularity list for key order `keys`. */
  function PopularityRows(pop: map<string, nat>, keys: seq<string>): seq<Row>
    requires forall k :: k in keys ==> k in pop
  {
    RankByCount(Entries(pop, keys))
  }

  /** The popularity list shows every section of the map once, with its
      count, by descending count. */
  lemma PopularityRowsListed(pop: map<string, nat>, keys: seq<string>)
    requires Distinct(keys) && forall k :: k in pop <==> k in keys
    ensures var rows := PopularityRows(pop, keys);
            && ByCountDescending(rows)
            && |rows| == |pop|
            && (forall k :: k in pop ==> multiset(rows)[(k, pop[k])] == 1)
            && (forall row :: row in rows ==> row.0 in pop && row.1 == pop[row.0])
  {
    var es := Entries(pop, keys);
    var rows := PopularityRows(pop, keys);
    EntriesDistinct(pop, keys);
    DistinctLength(keys, pop.Keys);
    forall k | k in pop ensures multiset(rows)[(k, pop[k])] == 1 {
      var i :| 0 <= i < |keys| && keys[i] == k;
      assert es[i] == (k, pop[k]);
      DistinctOccursOnce(es, (k, pop[k]));
    }
    forall row | row in rows ensures row.0 in pop && row.1 == pop[row.0] {
      assert row in multiset(rows);
      assert row in multiset(es);
      var i :| 0 <= i < |es| && es[i] == row;
    }
    assert |rows| == |multiset(rows)| == |multiset(es)| == |es|;
  }

  /** Entries for distinct keys are distinct. */
  lemma EntriesDistinct(pop: map<string, nat>, keys: seq<string>)
    requires Distinct(keys) && forall k :: k in keys ==> k in pop
    ensures Distinct(Entries(pop, keys))
  {
    var es := Entries(pop, keys);
    forall i, j | 0 <= i < j < |es| ensures es[i] != es[j] {
      assert es[i].0 == keys[i] && es[j].0 == keys[j];
    }
  }

  /** A sequence without repeats that lists exactly a set has its size. */
  lemma {:induction false} DistinctLength(keys: seq<string>, s: set<string>)
    requires Distinct(keys) && forall k :: k in s <==> k in keys
    ensures |keys| == |s|
  {
    if |keys| > 0 {
      var rest := keys[1..];
      assert Distinct(rest) by {
        forall i, j | 0 <= i < j < |rest| ensures rest[i] != rest[j] {
          assert rest[i] == keys[i + 1] && rest[j] == keys[j + 1];
        }
      }
      assert keys[0] !in rest by {
        forall j | 0 <= j < |rest| ensures rest[j] != keys[0] {
          assert rest[j] == keys[j + 1];
        }
      }
      assert forall k :: k in s - {keys[0]} <==> k in rest by {
        forall k ensures k in keys <==> k == keys[0] || k in rest {
          assert keys == [keys[0]] + rest;
        }
      }
      DistinctLength(rest, s - {keys[0]});
    }
  }

  // ---------------------------------------------------------------------
  // Bar widths
  // ---------------------------------------------------------------------

  /** `Math.max(...Object.values(sectionPopularity))` over the listed rows. */
  function MaxCount(rows: seq<Row>): (m: nat)
    requires |rows| > 0
    ensures forall i :: 0 <= i < |rows| ==> rows[i].1 <= m
    ensures exists i :: 0 <= i < |rows| && rows[i].1 == m
  {
    if |rows| == 1 then rows[0].1
    else
      var m := MaxCount(rows[1..]);
      assert forall i :: 1 <= i < |rows| ==> rows[i] == rows[1..][i - 1];
      if rows[0].1 >= m then rows[0].1 else m
  }

  /** `(count / maxCount) * 100`: the bar width in percent. */
  function BarPercent(count: nat, maxCount: nat): real
    requires maxCount > 0
  {
    (count as real / maxCount as real) * 100.0
  }

  /** Every bar is wider than nothing and at most full width, and the
      first bar of the ranked list is full width. */
  lemma BarsWithinScale(rows: seq<Row>)
    requires |rows| > 0 && forall i :: 0 <= i < |rows| ==> rows[i].1 > 0
    ensures forall i :: 0 <= i < |rows| ==> 0.0 < BarPercent(rows[i].1, MaxCount(rows)) <= 100.0
    ensures ByCountDescending(rows) ==> BarPercent(rows[0].1, MaxCount(rows)) == 100.0
  {
    var m := MaxCount(rows);
    forall i | 0 <= i < |rows| ensures 0.0 < BarPercent(rows[i].1, m) <= 100.0 {
      FractionOfMax(rows[i].1, m);
    }
    if ByCountDescending(rows) {
      FirstRowIsMax(rows);
      FractionOfMax(rows[0].1, m);
    }
  }

  lemma FirstRowIsMax(rows: seq<Row>)
    requires |rows| > 0 && ByCountDescending(rows)
    ensures MaxCount(rows) == rows[0].1
  {
    var i :| 0 <= i < |rows| && rows[i].1 == MaxCount(rows);
    if i > 0 {
      assert rows[0].1 >= rows[i].1;
    }
  }

  lemma FractionOfMax(count: nat, maxCount: nat)
    requires 0 < count <= maxCount
    ensures 0.0 < BarPercent(count, maxCount) <= 100.0
    ensures count == maxCount ==> BarPercent(count, maxCount) == 100.0
  {
    var q := count as real / maxCount as real;
    assert q * maxCount as real == count as real;
    assert q <= 1.0;
    if count == maxCount {
      assert q == 1.0;
    }
  }
}
