/** The payment form's input formatters: the card number grouped in fours,
    the expiry date as `MM/YY` and the CVV as digits only. Each runs on the
    field's whole text after every keystroke, so each must leave its own
    output unchanged. */
module Formatters {
  import opened Seqs

  /** The characters the regular-expression class `\s` matches. */
  predicate IsWhitespace(c: char) {
    var n := c as int;
    || 9 <= n <= 13
    || n == 32
    || n == 0xA0
    || n == 0x1680
    || 0x2000 <= n <= 0x200A
    || n == 0x2028
    || n == 0x2029
    || n == 0x202F
    || n == 0x205F
    || n == 0x3000
    || n == 0xFEFF
  }

  predicate NotWhitespace(c: char) {
    !IsWhitespace(c)
  }

  /** The characters `\d` matches; `\D` is every other one. */
  predicate IsDigit(c: char) {
    '0' <= c <= '9'
  }

  /** `replace(/\s/g, '')`: every character of `s` that is not whitespace,
      each as often as it occurs, in order, and nothing else. */
  function StripWhitespace(s: string): (r: string)
    ensures forall i :: 0 <= i < |r| ==> NotWhitespace(r[i])
    ensures IsSubsequence(r, s)
    ensures forall c :: multiset(r)[c] == if NotWhitespace(c) then multiset(s)[c] else 0
  {
    FilterAllSatisfy(s, NotWhitespace);
    FilterIsSubsequence(s, NotWhitespace);
    forall c ensures multiset(Filter(s, NotWhitespace))[c] == if NotWhitespace(c) then multiset(s)[c] else 0 {
      FilterMultiplicity(s, NotWhitespace, c);
    }
    Filter(s, NotWhitespace)
  }

  /** `replace(/\D/g, '')`. */
  function Digits(s: string): string {
    Filter(s, IsDigit)
  }

  // ---- the card number ----

  /** `match(/.{1,4}/g)` on a text without line terminators (whitespace has
      been stripped): the text cut into pieces of four, the last of one to
      four characters. */
  function Chunks(s: string): (cs: seq<string>)
    ensures s == [] <==> cs == []
    ensures forall k :: 0 <= k < |cs| ==> 1 <= |cs[k]| <= 4
    ensures forall k :: 0 <= k < |cs| - 1 ==> |cs[k]| == 4
    ensures Concat(cs) == s
    decreases |s|
  {
    if s == [] then []
    else if |s| <= 4 then [s]
    else
      var rest := Chunks(s[4..]);
      assert s == s[..4] + Concat(rest);
      [s[..4]] + rest
  }

  /** The pieces put back together. */
  function Concat(cs: seq<string>): string {
    if cs == [] then [] else cs[0] + Concat(cs[1..])
  }

  /** `join(' ')`. */
  function Join(cs: seq<string>): string {
    if cs == [] then []
    else if |cs| == 1 then cs[0]
    else cs[0] + " " + Join(cs[1..])
  }

  /** The card-number field: the text without whitespace, cut into groups of
      four joined by single spaces. An empty text has no groups, the match
      gives `null`, and the `|| value` fallback returns the empty text. */
  function FormatCardNumber(input: string): string {
    var value := StripWhitespace(input);
    if value == [] then value else Join(Chunks(value))
  }

  /** Past the first group the grouped text is the first four characters,
      a space and the rest grouped. */
  lemma GroupsUnfold(v: string)
    requires |v| > 4
    ensures Join(Chunks(v)) == v[..4] + " " + Join(Chunks(v[4..]))
  {
    assert Chunks(v) == [v[..4]] + Chunks(v[4..]);
  }

  lemma {:induction false} GroupLength(v: string)
    requires v != []
    ensures |Join(Chunks(v))| == |v| + (|v| - 1) / 4
    decreases |v|
  {
    if |v| > 4 {
      GroupsUnfold(v);
      GroupLength(v[4..]);
    }
  }

  /** Moving five positions on keeps the remainder and the quotient's
      step. */
  lemma ShiftByFive(i: int)
    requires i >= 5
    ensures (i - 5) % 5 == i % 5
    ensures (i - 5) / 5 == i / 5 - 1
  {
  }

  lemma {:induction false} GroupAt(v: string, i: int)
    requires v != []
    requires forall j :: 0 <= j < |v| ==> NotWhitespace(v[j])
    requires 0 <= i < |Join(Chunks(v))|
    ensures Join(Chunks(v))[i] == ' ' <==> i % 5 == 4
    ensures i % 5 != 4 ==> 0 <= i - i / 5 < |v| && Join(Chunks(v))[i] == v[i - i / 5]
    decreases |v|
  {
    var out := Join(Chunks(v));
    if |v| <= 4 {
      assert out == v;
      assert NotWhitespace(v[i]);
    } else {
      var w := v[4..];
      var rest := Join(Chunks(w));
      GroupsUnfold(v);
      assert out == v[..4] + " " + rest;
      if i < 4 {
        assert out[i] == v[i] && NotWhitespace(v[i]);
      } else if i > 4 {
        var k := i - 5;
        assert out[i] == rest[k];
        GroupAt(w, k);
        ShiftByFive(i);
        assert k - k / 5 == i - i / 5 - 4;
      }
    }
  }

  /** The layout of the grouped text: one space after every four characters
      and nowhere else, the characters of `v` in order between them. */
  lemma GroupLayout(v: string)
    requires v != []
    requires forall i :: 0 <= i < |v| ==> NotWhitespace(v[i])
    ensures var out := Join(Chunks(v));
            && |out| == |v| + (|v| - 1) / 4
            && (forall i :: 0 <= i < |out| ==> (out[i] == ' ' <==> i % 5 == 4))
            && (forall i :: 0 <= i < |out| && i % 5 != 4 ==> out[i] == v[i - i / 5])
  {
    GroupLength(v);
    forall i | 0 <= i < |Join(Chunks(v))| ensures Join(Chunks(v))[i] == ' ' <==> i % 5 == 4 {
      GroupAt(v, i);
    }
    forall i | 0 <= i < |Join(Chunks(v))| && i % 5 != 4 ensures Join(Chunks(v))[i] == v[i - i / 5] {
      GroupAt(v, i);
    }
  }

  /** Stripping the whitespace from the grouped text gives back the text. */
  lemma {:induction false} StripGroups(v: string)
    requires forall i :: 0 <= i < |v| ==> NotWhitespace(v[i])
    ensures StripWhitespace(Join(Chunks(v))) == v
    decreases |v|
  {
    if v == [] {
    } else if |v| <= 4 {
      FilterKeepsAll(v, NotWhitespace);
    } else {
      var w := v[4..];
      GroupsUnfold(v);
      StripGroups(w);
      FilterAppend(v[..4] + " ", Join(Chunks(w)), NotWhitespace);
      FilterAppend(v[..4], " ", NotWhitespace);
      FilterKeepsAll(v[..4], NotWhitespace);
      assert Filter(" ", NotWhitespace) == [];
      assert v == v[..4] + w;
    }
  }

  /** Whitespace-free text, such as stripped text, has nothing to strip. */
  lemma StripNothing(v: string)
    requires forall i :: 0 <= i < |v| ==> NotWhitespace(v[i])
    ensures StripWhitespace(v) == v
  {
    FilterKeepsAll(v, NotWhitespace);
  }

  /** The card number keeps exactly the non-whitespace characters of the
      input, and its layout is four characters, a space, four characters and
      so on, with no other space. */
  lemma CardNumberShape(input: string)
    ensures StripWhitespace(FormatCardNumber(input)) == StripWhitespace(input)
    ensures var v := StripWhitespace(input);
            var out := FormatCardNumber(input);
            v != [] ==>
              && |out| == |v| + (|v| - 1) / 4
              && (forall i :: 0 <= i < |out| ==> (out[i] == ' ' <==> i % 5 == 4))
              && (forall i :: 0 <= i < |out| && i % 5 != 4 ==> out[i] == v[i - i / 5])
  {
    var v := StripWhitespace(input);
    FilterAllSatisfy(input, NotWhitespace);
    if v == [] {
      StripNothing(v);
    } else {
      StripGroups(v);
      GroupLayout(v);
    }
  }

  /** Formatting the card number twice is formatting it once. */
  lemma CardNumberIdempotent(input: string)
    ensures FormatCardNumber(FormatCardNumber(input)) == FormatCardNumber(input)
  {
    CardNumberShape(input);
  }

  // ---- the expiry date ----

  function Min(a: int, b: int): int {
    if a <= b then a else b
  }

  /** The expiry field: its digits; from two digits on, the first two, a
      slash and at most two more (`slice(2, 4)`). */
  function FormatExpiry(input: string): string {
    var value := Digits(input);
    if |value| >= 2 then value[..2] + "/" + value[2..Min(4, |value|)] else value
  }

  /** Digit-only text has no digit to drop. */
  lemma DigitsNothing(d: string)
    requires forall i :: 0 <= i < |d| ==> IsDigit(d[i])
    ensures Digits(d) == d
  {
    FilterKeepsAll(d, IsDigit);
  }

  /** The expiry date is at most five characters; its digits are the first
      four digits of the input; with two digits or more its third character
      is the slash and every other one a digit, and with fewer it is those
      digits alone. */
  lemma ExpiryShape(input: string)
    ensures var d := Digits(input);
            var out := FormatExpiry(input);
            && |out| <= 5
            && Digits(out) == d[..Min(4, |d|)]
            && (|d| >= 2 ==> |out| >= 3 && out[2] == '/' &&
                             forall i :: 0 <= i < |out| && i != 2 ==> IsDigit(out[i]))
            && (|d| < 2 ==> out == d)
  {
    var d := Digits(input);
    FilterAllSatisfy(input, IsDigit);
    if |d| >= 2 {
      var head := d[..2];
      var tail := d[2..Min(4, |d|)];
      FilterAppend(head + "/", tail, IsDigit);
      FilterAppend(head, "/", IsDigit);
      DigitsNothing(head);
      DigitsNothing(tail);
      assert Filter("/", IsDigit) == [];
      assert d[..Min(4, |d|)] == head + tail;
    } else {
      DigitsNothing(d);
    }
  }

  /** Formatting the expiry date twice is formatting it once. */
  lemma ExpiryIdempotent(input: string)
    ensures FormatExpiry(FormatExpiry(input)) == FormatExpiry(input)
  {
    var d := Digits(input);
    ExpiryShape(input);
    var e := Digits(FormatExpiry(input));
    if |d| >= 2 {
      assert e == d[..Min(4, |d|)];
      assert e[..2] == d[..2];
      assert e[2..Min(4, |e|)] == d[2..Min(4, |d|)];
    }
  }

  // ---- the CVV ----

  /** The CVV field: the input's digits, each as often as it occurs, in
      order, and nothing else. */
  function FormatCvv(input: string): (out: string)
    ensures forall i :: 0 <= i < |out| ==> IsDigit(out[i])
    ensures IsSubsequence(out, input)
    ensures forall c :: multiset(out)[c] == if IsDigit(c) then multiset(input)[c] else 0
  {
    FilterAllSatisfy(input, IsDigit);
    FilterIsSubsequence(input, IsDigit);
    forall c ensures multiset(Digits(input))[c] == if IsDigit(c) then multiset(input)[c] else 0 {
      FilterMultiplicity(input, IsDigit, c);
    }
    Digits(input)
  }

  /** Formatting the CVV twice is formatting it once. */
  lemma CvvIdempotent(input: string)
    ensures FormatCvv(FormatCvv(input)) == FormatCvv(input)
  {
    DigitsNothing(FormatCvv(input));
  }
}
