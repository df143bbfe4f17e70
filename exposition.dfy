/** Text pieces of the Prometheus text exposition format as the reporter writes
    them: integral numbers, sanitized metric names, label sets, quantile labels,
    and the newline-separated page together with the test's way of cutting it
    back into lines. */
module Exposition {
  import opened Wrappers

  // ---------------------------------------------------------------------------
  // Integral numbers

  function DigitChar(d: nat): (c: char)
    requires d < 10
    ensures '0' <= c <= '9'
    ensures c as int - '0' as int == d
  {
    (('0' as int) + d) as char
  }

  predicate IsDigits(s: string) {
    forall i :: 0 <= i < |s| ==> '0' <= s[i] <= '9'
  }

  /** Decimal rendering of an integral sample value, without leading zeros. */
  function NatToString(n: nat): (s: string)
    ensures |s| > 0 && IsDigits(s)
    ensures s[0] == '0' ==> n == 0 && s == "0"
    decreases n
  {
    if n < 10 then [DigitChar(n)] else NatToString(n / 10) + [DigitChar(n % 10)]
  }

  /** Decimal rendering of a possibly negative histogram boundary. */
  function IntToString(i: int): string {
    if i < 0 then "-" + NatToString(-i) else NatToString(i)
  }

  /** Reading a string of decimal digits back as a number. */
  function ParseNat(s: string): nat
    requires IsDigits(s)
  {
    if s == [] then 0 else 10 * ParseNat(s[..|s| - 1]) + (s[|s| - 1] as int - '0' as int)
  }

  lemma {:induction false} ParseNatToString(n: nat)
    ensures ParseNat(NatToString(n)) == n
    decreases n
  {
    if n >= 10 {
      var s := NatToString(n / 10);
      assert NatToString(n)[..|NatToString(n)| - 1] == s;
      ParseNatToString(n / 10);
    }
  }

  // ---------------------------------------------------------------------------
  // Metric names

  /** The output form of a metric name: every '.' replaced by '_'. */
  function Sanitize(name: string): (r: string)
    ensures |r| == |name|
    ensures forall i :: 0 <= i < |name| ==> r[i] == (if name[i] == '.' then '_' else name[i])
    ensures '.' !in r
  {
    if name == [] then []
    else Sanitize(name[..|name| - 1]) + [if name[|name| - 1] == '.' then '_' else name[|name| - 1]]
  }

  // ---------------------------------------------------------------------------
  // Label sets

  datatype Label = Label(key: string, value: string)

  function LabelPair(l: Label): string {
    l.key + "=\"" + l.value + "\""
  }

  /** The pairs, in the given order, as `key="value"` joined by commas: every
      pair after the first is preceded by a comma. */
  function FormatLabels(labels: seq<Label>): string {
    if |labels| == 0 then ""
    else if |labels| == 1 then LabelPair(labels[0])
    else FormatLabels(labels[..|labels| - 1]) + "," + LabelPair(labels[|labels| - 1])
  }

  /** Read from the front: the first pair, then a comma and the text of the
      remaining pairs, if there are any. */
  lemma {:induction false} FormatLabelsCons(l: Label, rest: seq<Label>)
    ensures FormatLabels([l] + rest) == LabelPair(l) + (if rest == [] then "" else "," + FormatLabels(rest))
    decreases |rest|
  {
    var s := [l] + rest;
    if |rest| == 1 {
      assert s[..1] == [l];
    } else if |rest| > 1 {
      var init := rest[..|rest| - 1];
      assert s[..|s| - 1] == [l] + init;
      assert s[|s| - 1] == rest[|rest| - 1];
      FormatLabelsCons(l, init);
      AppendAssociative(LabelPair(l) + ",", FormatLabels(init), "," + LabelPair(rest[|rest| - 1]));
    }
  }

  // ---------------------------------------------------------------------------
  // Quantile labels

  function Pow10(k: nat): nat {
    if k == 0 then 1 else 10 * Pow10(k - 1)
  }

  /** `s` is a decimal numeral, with no trailing zero in a fractional part,
      whose value is exactly q/100. */
  predicate DenotesHundredths(s: string, q: nat) {
    (IsDigits(s) && |s| > 0 && ParseNat(s) * 100 == q)
    || exists k :: 0 < k < |s| - 1 && s[k] == '.' && DecimalParts(s, k, q)
  }

  predicate DecimalParts(s: string, k: nat, q: nat)
    requires 0 < k < |s| - 1
  {
    var whole, frac := s[..k], s[k + 1..];
    IsDigits(whole) && IsDigits(frac) && frac[|frac| - 1] != '0'
    && (ParseNat(whole) * Pow10(|frac|) + ParseNat(frac)) * 100 == q * Pow10(|frac|)
  }

  /** The label of percentile q, written as the fraction q/100:
      50 is "0.5", 99 is "0.99", 100 is "1". */
  function QuantileLabel(q: nat): string
    requires q <= 100
  {
    if q == 100 then "1"
    else if q == 0 then "0"
    else if q % 10 == 0 then "0." + [DigitChar(q / 10)]
    else "0." + [DigitChar(q / 10), DigitChar(q % 10)]
  }

  /** Every quantile label is a numeral whose value is exactly q/100. */
  lemma QuantileLabelDenotes(q: nat)
    requires q <= 100
    ensures DenotesHundredths(QuantileLabel(q), q)
  {
    var s := QuantileLabel(q);
    if 0 < q < 100 {
      var tens, ones := DigitChar(q / 10), DigitChar(q % 10);
      assert DecimalParts(s, 1, q) by {
        assert s[..1] == "0";
        if q % 10 == 0 {
          assert s[2..] == [tens];
          assert ParseNat(s[2..]) == q / 10 by {
            assert s[2..][..0] == [];
          }
        } else {
          assert s == "0." + [tens, ones];
          assert s[2..] == [tens, ones];
          assert ParseNat([tens]) == q / 10 by {
            assert [tens][..0] == [];
          }
          assert [tens, ones][..1] == [tens];
          assert ParseNat(s[2..]) == 10 * (q / 10) + q % 10;
        }
      }
    }
  }

  // ---------------------------------------------------------------------------
  // Pages of lines

  predicate NoNewline(s: string) {
    '\n' !in s
  }

  predicate AllNoNewline(lines: seq<string>) {
    forall line :: line in lines ==> NoNewline(line)
  }

  predicate LabelsNoNewline(labels: seq<Label>) {
    forall i :: 0 <= i < |labels| ==> NoNewline(labels[i].key) && NoNewline(labels[i].value)
  }

  lemma DigitsNoNewline(s: string)
    requires IsDigits(s)
    ensures NoNewline(s)
  {
    forall i | 0 <= i < |s| ensures s[i] != '\n' {}
  }

  /** Numbers, sanitized names of one-line names, label sets of one-line
      pairs and quantile labels never contain a newline. */
  lemma IntToStringNoNewline(i: int)
    ensures NoNewline(IntToString(i))
  {
    DigitsNoNewline(NatToString(if i < 0 then -i else i));
  }

  lemma SanitizeNoNewline(name: string)
    requires NoNewline(name)
    ensures NoNewline(Sanitize(name))
  {
    var r := Sanitize(name);
    forall i | 0 <= i < |r| ensures r[i] != '\n' {
      assert name[i] in name;
    }
  }

  lemma {:induction false} FormatLabelsNoNewline(labels: seq<Label>)
    requires LabelsNoNewline(labels)
    ensures NoNewline(FormatLabels(labels))
    decreases |labels|
  {
    if |labels| > 1 {
      var init := labels[..|labels| - 1];
      assert LabelsNoNewline(init) by {
        forall i | 0 <= i < |init| ensures init[i] == labels[i] {}
      }
      FormatLabelsNoNewline(init);
    }
  }

  lemma QuantileLabelNoNewline(q: nat)
    requires q <= 100
    ensures NoNewline(QuantileLabel(q))
  {
    var s := QuantileLabel(q);
    forall i | 0 <= i < |s| ensures s[i] != '\n' {}
  }

  /** A page: every line followed by a newline. */
  function Render(lines: seq<string>): (page: string)
    ensures page == "" <==> lines == []
    ensures lines != [] ==> page[|page| - 1] == '\n'
  {
    if lines == [] then "" else lines[0] + "\n" + Render(lines[1..])
  }

  /** The first line of a page, its newline, and what follows. */
  lemma FirstLine(b: seq<string>, r: string)
    requires b != []
    ensures Render(b) + r == b[0] + "\n" + (Render(b[1..]) + r)
    ensures (Render(b) + r)[|b[0]|] == '\n'
    ensures forall i :: 0 <= i < |b[0]| ==> (Render(b) + r)[i] == b[0][i]
  {
  }

  /** Where `std::string::find("\n")` finds the first newline, or nothing (npos). */
  function FindNewline(s: string): (pos: Option<nat>)
    ensures pos.None? <==> NoNewline(s)
    ensures pos.Some? ==> pos.value < |s| && s[pos.value] == '\n' && NoNewline(s[..pos.value])
  {
    if s == [] then None
    else if s[0] == '\n' then Some(0)
    else match FindNewline(s[1..])
      case None => None
      case Some(p) =>
        assert s[..p + 1] == [s[0]] + s[1..][..p];
        Some(p + 1)
  }

  /** `find` stops at the first newline. */
  lemma {:induction false} FirstNewline(s: string, k: nat)
    requires k < |s| && s[k] == '\n' && NoNewline(s[..k])
    ensures FindNewline(s) == Some(k)
    decreases k
  {
    if k > 0 {
      assert s[0] == s[..k][0];
      assert s[1..][..k - 1] == s[..k][1..];
      FirstNewline(s[1..], k - 1);
    }
  }

  /** The lines the test reads off a page: the text before each newline, from
      the front; text after the last newline is not a line. */
  function CompleteLines(text: string): (lines: seq<string>)
    ensures AllNoNewline(lines)
    decreases |text|
  {
    match FindNewline(text)
    case None => []
    case Some(p) =>
      var rest := CompleteLines(text[p + 1..]);
      assert forall line :: line in [text[..p]] + rest ==> line == text[..p] || line in rest;
      [text[..p]] + rest
  }

  /** Reading the lines off a page gives back the lines it was made of. */
  lemma {:induction false} CompleteLinesOfRender(lines: seq<string>, tail: string)
    requires AllNoNewline(lines) && NoNewline(tail)
    ensures CompleteLines(Render(lines) + tail) == lines
    decreases |lines|
  {
    var t := Render(lines) + tail;
    if lines == [] {
      assert t == tail;
    } else {
      var p, rest := |lines[0]|, Render(lines[1..]) + tail;
      assert t == lines[0] + "\n" + rest && t[..p] == lines[0] && t[p + 1..] == rest by {
        FirstLine(lines, tail);
      }
      assert FindNewline(t) == Some(p) by {
        assert NoNewline(lines[0]);
        FirstNewline(t, p);
      }
      assert CompleteLines(t) == [t[..p]] + CompleteLines(rest);
      CompleteLinesOfRender(lines[1..], tail);
      HeadAndRest(lines);
    }
  }

  lemma HeadAndRest<T>(s: seq<T>)
    requires s != []
    ensures [s[0]] + s[1..] == s
  {
  }

  lemma AppendAssociative<T>(a: seq<T>, b: seq<T>, c: seq<T>)
    ensures a + b + c == a + (b + c)
  {
  }
}
