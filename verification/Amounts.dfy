/**
 Amount input: what is typed is reduced to digits and at most one dot, the
 integer part loses its leading zeros and is grouped in thousands, and the
 decimals are cut to a maximum.
 */
module Amounts {
  predicate IsDigit(c: char) { '0' <= c <= '9' }

  predicate Digits(s: string) { forall i :: 0 <= i < |s| ==> IsDigit(s[i]) }

  /** value.replace(/[^\d.]/g, "") */
  function Sanitize(value: string): string {
    if value == "" then ""
    else (if IsDigit(value[0]) || value[0] == '.' then [value[0]] else "") + Sanitize(value[1..])
  }

  /** replace(/\./g, "") and, for the grouped text, replace(/,/g, "") */
  function Delete(s: string, c: char): string {
    if s == "" then "" else (if s[0] == c then "" else [s[0]]) + Delete(s[1..], c)
  }

  /** indexOf("."), or the length when there is none. */
  function DotAt(s: string): (n: nat)
    ensures n <= |s| && (n < |s| ==> s[n] == '.')
    ensures forall i :: 0 <= i < n ==> s[i] != '.'
  {
    if s == "" || s[0] == '.' then 0 else 1 + DotAt(s[1..])
  }

  function Cut(s: string, most: nat): string { if |s| <= most then s else s[..most] }

  /** value.replace(/^0+(?=\d)/, ""): one digit always stays. */
  function StripZeros(s: string): string {
    if |s| >= 2 && s[0] == '0' then StripZeros(s[1..]) else s
  }

  /** digits.replace(/\B(?=(\d{3})+(?!\d))/g, ","): a comma at each inner position
      with a positive multiple of three digits after it. */
  function Group(digits: string): string {
    if digits == "" then ""
    else
      var after := |digits| - 1;
      [digits[0]] + (if after > 0 && after % 3 == 0 then "," else "") + Group(digits[1..])
  }

  function FormatIntegerPart(value: string): string {
    if value == "" then "" else Group(StripZeros(value))
  }

  function OrZero(s: string): string { if s == "" then "0" else s }

  function NormalizeAmountInput(value: string, maxDecimals: nat): string {
    var sanitized := Sanitize(value);
    if sanitized == "" then ""
    else
      var dot := DotAt(sanitized);
      var formattedInteger := FormatIntegerPart(sanitized[..dot]);
      if dot < |sanitized| then
        OrZero(formattedInteger) + "." + Cut(Delete(sanitized[dot + 1..], '.'), maxDecimals)
      else
        formattedInteger
  }

  // ------------------------------------------------------------------ sanitising

  predicate Sanitized(s: string) { forall i :: 0 <= i < |s| ==> IsDigit(s[i]) || s[i] == '.' }

  lemma {:induction false} SanitizeSpec(s: string)
    ensures Sanitized(Sanitize(s))
    ensures Sanitized(s) ==> Sanitize(s) == s
  {
    if s != "" { SanitizeSpec(s[1..]); }
  }

  lemma {:induction false} DeletePush(x: char, s: string, c: char)
    ensures Delete([x] + s, c) == (if x == c then "" else [x]) + Delete(s, c)
  {
    assert ([x] + s)[1..] == s;
  }

  lemma {:induction false} SanitizeDotted(a: string, b: string)
    ensures Sanitize(a + "." + b) == Sanitize(a) + "." + Sanitize(b)
  {
    SanitizeJoins(a + ".", b);
    SanitizeJoins(a, ".");
    assert Sanitize(".") == "." by { assert "."[1..] == "" && Sanitize("") == ""; }
  }

  lemma {:induction false} DeleteDotted(a: string, b: string, c: char)
    requires c != '.'
    ensures Delete(a + "." + b, c) == Delete(a, c) + "." + Delete(b, c)
  {
    DeleteJoins(a + ".", b, c);
    DeleteJoins(a, ".", c);
    DeletePush('.', "", c);
    assert ['.'] + "" == ".";
  }

  lemma {:induction false} SanitizeJoins(a: string, b: string)
    ensures Sanitize(a + b) == Sanitize(a) + Sanitize(b)
  {
    if a == "" {
      assert a + b == b;
    } else {
      var front := if IsDigit(a[0]) || a[0] == '.' then [a[0]] else "";
      assert (a + b)[1..] == a[1..] + b;
      SanitizeJoins(a[1..], b);
      assert front + (Sanitize(a[1..]) + Sanitize(b)) == front + Sanitize(a[1..]) + Sanitize(b);
    }
  }

  lemma {:induction false} DeleteSpec(s: string, c: char)
    ensures forall i :: 0 <= i < |Delete(s, c)| ==> Delete(s, c)[i] in s && Delete(s, c)[i] != c
    ensures c !in s ==> Delete(s, c) == s
    ensures |Delete(s, c)| <= |s|
  {
    if s != "" {
      DeleteSpec(s[1..], c);
      assert s == [s[0]] + s[1..];
    }
  }

  lemma {:induction false} DeleteJoins(a: string, b: string, c: char)
    ensures Delete(a + b, c) == Delete(a, c) + Delete(b, c)
  {
    if a == "" {
      assert a + b == b;
    } else {
      var front := if a[0] == c then "" else [a[0]];
      assert (a + b)[1..] == a[1..] + b;
      DeleteJoins(a[1..], b, c);
      assert front + (Delete(a[1..], c) + Delete(b, c)) == front + Delete(a[1..], c) + Delete(b, c);
    }
  }

  // --------------------------------------------------------------- leading zeros

  predicate NoLeadingZero(s: string) { |s| >= 2 ==> s[0] != '0' }

  lemma {:induction false} StripZerosSpec(s: string)
    requires Digits(s)
    ensures NoLeadingZero(StripZeros(s)) && Digits(StripZeros(s))
    ensures NoLeadingZero(s) ==> StripZeros(s) == s
    ensures (StripZeros(s) == "") == (s == "")
    ensures Number(StripZeros(s)) == Number(s)
  {
    if |s| >= 2 && s[0] == '0' {
      NumberOfZeroFirst(s);
      StripZerosSpec(s[1..]);
    }
  }

  /** The number a string of digits writes. */
  function Number(s: string): nat
    requires Digits(s)
  {
    if s == "" then 0 else 10 * Number(s[..|s| - 1]) + ((s[|s| - 1] - '0') as nat)
  }

  lemma {:induction false} NumberOfZeroFirst(s: string)
    requires Digits(s) && s != "" && s[0] == '0'
    ensures Number(s[1..]) == Number(s)
  {
    if |s| > 1 {
      var front := s[..|s| - 1];
      NumberOfZeroFirst(front);
      assert s[1..][..|s| - 2] == front[1..];
    } else {
      assert s[..0] == "";
    }
  }

  // --------------------------------------------------------------------- grouping

  /** A comma stands exactly where a positive multiple of three digits remains:
      counting from the right, at every fourth place. */
  predicate Grouped(s: string) {
    forall i :: 0 <= i < |s| ==> if (|s| - i) % 4 == 0 then s[i] == ',' else IsDigit(s[i])
  }

  lemma {:induction false} GroupedTail(s: string)
    requires Grouped(s) && s != ""
    ensures Grouped(s[1..])
  {
    var t := s[1..];
    forall i | 0 <= i < |t| ensures if (|t| - i) % 4 == 0 then t[i] == ',' else IsDigit(t[i]) {
      assert t[i] == s[i + 1];
    }
  }

  lemma {:induction false} GroupedPush(c: char, s: string)
    requires Grouped(s) && if (|s| + 1) % 4 == 0 then c == ',' else IsDigit(c)
    ensures Grouped([c] + s)
  {
  }

  /** The length of n grouped digits: a comma for every full three but the first. */
  function GroupedSize(n: nat): nat { if n == 0 then 0 else n + (n - 1) / 3 }

  lemma {:induction false} GroupedSizeStep(n: nat)
    ensures n > 0 && n % 3 == 0 ==> GroupedSize(n) % 4 == 3 && GroupedSize(n + 1) == GroupedSize(n) + 2
    ensures !(n > 0 && n % 3 == 0) ==> GroupedSize(n) % 4 != 3 && GroupedSize(n + 1) == GroupedSize(n) + 1
  {
    if n > 0 {
      var q, r := n / 3, n % 3;
      if r == 0 {
        assert GroupedSize(n) == 4 * (q - 1) + 3;
      } else {
        assert GroupedSize(n) == 4 * q + r;
      }
    }
  }

  lemma {:induction false} GroupPush(c: char, d: string)
    ensures Group([c] + d) == [c] + ((if |d| > 0 && |d| % 3 == 0 then "," else "") + Group(d))
  {
    assert ([c] + d)[1..] == d;
  }

  /** A digit put before a grouped text, with a comma where one is due. */
  function Put(c: char, g: string): string { [c] + ((if |g| % 4 == 3 then "," else "") + g) }

  lemma {:induction false} PutGrouped(c: char, g: string)
    requires IsDigit(c) && Grouped(g)
    ensures Grouped(Put(c, g)) && |Put(c, g)| == |g| + if |g| % 4 == 3 then 2 else 1
  {
    if |g| % 4 == 3 {
      GroupedPush(',', g);
      GroupedPush(c, "," + g);
    } else {
      GroupedPush(c, g);
      assert "" + g == g;
    }
  }

  lemma {:induction false} PutDelete(c: char, g: string)
    requires IsDigit(c)
    ensures Delete(Put(c, g), ',') == [c] + Delete(g, ',')
  {
    var mark := if |g| % 4 == 3 then "," else "";
    DeletePush(c, mark + g, ',');
    if mark == "," { DeletePush(',', g, ','); } else { assert mark + g == g; }
  }

  lemma {:induction false} GroupSpec(d: string)
    requires Digits(d)
    ensures Grouped(Group(d)) && Delete(Group(d), ',') == d
    ensures |Group(d)| == GroupedSize(|d|)
    ensures d != "" ==> Group(d) != "" && Group(d)[0] == d[0]
  {
    if d != "" {
      var t := d[1..];
      GroupSpec(t);
      assert d == [d[0]] + t;
      GroupPush(d[0], t);
      GroupedSizeStep(|t|);
      PutGrouped(d[0], Group(t));
      PutDelete(d[0], Group(t));
      assert Group(d) == Put(d[0], Group(t));
    }
  }

  lemma {:induction false} GroupedLength(s: string)
    requires Grouped(s)
    ensures Digits(Delete(s, ',')) && |Delete(s, ',')| == |s| - |s| / 4
  {
    if s != "" {
      GroupedTail(s);
      GroupedLength(s[1..]);
    }
  }

  /** What follows the first digit and its comma. */
  function After(s: string): string
    requires s != ""
  {
    var rest := s[1..];
    if rest != "" && |rest| % 4 == 0 then rest[1..] else rest
  }

  lemma {:induction false} AfterFirst(s: string)
    requires Grouped(s) && |s| % 4 != 0
    ensures Grouped(After(s)) && (After(s) == "" || |After(s)| % 4 != 0)
    ensures IsDigit(s[0]) && s == Put(s[0], After(s))
  {
    var rest := s[1..];
    GroupedTail(s);
    if rest != "" && |rest| % 4 == 0 {
      GroupedTail(rest);
      assert |rest[1..]| % 4 == 3;
      assert rest[0] == ',' && rest == "," + rest[1..];
    } else {
      assert |rest| % 4 != 3;
      assert "" + rest == rest;
    }
  }

  /** Only one grouped text that starts with a digit has given digits. */
  lemma {:induction false} GroupIsUnique(s: string)
    requires Grouped(s) && (s == "" || |s| % 4 != 0)
    ensures Group(Delete(s, ',')) == s
  {
    if s != "" {
      AfterFirst(s);
      GroupIsUnique(After(s));
      PutUnique(s[0], After(s));
    }
  }

  lemma {:induction false} PutUnique(c: char, g: string)
    requires IsDigit(c) && Grouped(g) && Group(Delete(g, ',')) == g
    requires g == "" || |g| % 4 != 0
    ensures Group(Delete(Put(c, g), ',')) == Put(c, g)
  {
    var d := Delete(g, ',');
    PutDelete(c, g);
    GroupedLength(g);
    GroupPush(c, d);
    FourthPlace(|g|);
  }

  lemma {:induction false} FourthPlace(n: nat)
    requires n == 0 || n % 4 != 0
    ensures n % 4 == 3 <==> n - n / 4 > 0 && (n - n / 4) % 3 == 0
  {
    var q, r := n / 4, n % 4;
    assert n - q == 3 * q + r;
    if r == 3 { assert n - q == 3 * (q + 1); } else { assert (3 * q + r) % 3 == r; }
  }

  lemma {:induction false} GroupedHasNoDot(s: string)
    requires Grouped(s)
    ensures '.' !in s
  {
    forall i | 0 <= i < |s| ensures s[i] != '.' {
      assert if (|s| - i) % 4 == 0 then s[i] == ',' else IsDigit(s[i]);
    }
  }

  lemma {:induction false} SanitizeGrouped(s: string)
    requires Grouped(s)
    ensures Sanitize(s) == Delete(s, ',')
  {
    if s != "" {
      GroupedTail(s);
      SanitizeGrouped(s[1..]);
      assert if |s| % 4 == 0 then s[0] == ',' else IsDigit(s[0]);
    }
  }

  // ----------------------------------------------------------------- normal forms

  /** The digits before the first dot, and those after it, as typed. */
  function IntegerTyped(value: string): string { var s := Sanitize(value); s[..DotAt(s)] }

  function DecimalsTyped(value: string): string {
    var s := Sanitize(value);
    if DotAt(s) < |s| then Delete(s[DotAt(s) + 1..], '.') else ""
  }

  predicate HasDot(s: string) { DotAt(s) < |s| }

  lemma {:induction false} TypedDigits(value: string)
    ensures Digits(IntegerTyped(value)) && Digits(DecimalsTyped(value))
  {
    SanitizeSpec(value);
    var s := Sanitize(value);
    assert Sanitized(s);
    if HasDot(s) {
      var t := s[DotAt(s) + 1..];
      DeleteSpec(t, '.');
      forall i | 0 <= i < |Delete(t, '.')| ensures IsDigit(Delete(t, '.')[i]) {
        assert Delete(t, '.')[i] in t;
      }
    }
  }

  /** A text with one dot splits at it. */
  lemma {:induction false} DotSplits(a: string, b: string)
    requires '.' !in a
    ensures DotAt(a + "." + b) == |a|
    ensures (a + "." + b)[..|a|] == a && (a + "." + b)[|a| + 1..] == b
    ensures DotAt(a) == |a|
  {
    var s := a + "." + b;
    assert s[|a|] == '.';
    assert forall i :: 0 <= i < |a| ==> s[i] == a[i];
  }

  lemma {:induction false} DigitsPlain(s: string)
    requires Digits(s)
    ensures '.' !in s && ',' !in s && Sanitized(s) && Sanitize(s) == s && Delete(s, '.') == s && Delete(s, ',') == s
  {
    SanitizeSpec(s);
    DeleteSpec(s, '.');
    DeleteSpec(s, ',');
  }

  /** Grouped from the right, starting with a digit, no leading zero. */
  predicate ShownInteger(g: string) { Grouped(g) && |g| % 4 != 0 && NoLeadingZero(g) }

  /** The texts the field settles on: nothing, or a grouped integer part without
      leading zeros, then possibly a dot and at most so many decimals. */
  predicate Normal(s: string, maxDecimals: nat) {
    s == "" ||
    (var integer := s[..DotAt(s)];
     ShownInteger(integer) && (HasDot(s) ==> Digits(s[DotAt(s) + 1..]) && |s| - DotAt(s) - 1 <= maxDecimals))
  }

  /** The integer part shown for the digits typed before the dot. */
  function Shown(integer: string): string { FormatIntegerPart(OrZero(integer)) }

  lemma {:induction false} ShownSpec(integer: string)
    requires Digits(integer)
    ensures var g := Shown(integer);
      ShownInteger(g) && '.' !in g
      && Delete(g, ',') == OrZero(StripZeros(integer)) && Sanitize(g) == Delete(g, ',')
    ensures OrZero(FormatIntegerPart(integer)) == Shown(integer)
  {
    var d := StripZeros(OrZero(integer));
    StripZerosSpec(OrZero(integer));
    GroupSpec(d);
    SanitizeGrouped(Group(d));
    GroupedHasNoDot(Group(d));
    assert Group("0") == "0" by { assert Group("") == ""; }
  }

  /** What the field shows, by what was typed. */
  lemma {:induction false} NormalizeSpec(value: string, maxDecimals: nat)
    ensures NormalizeAmountInput(value, maxDecimals)
      == if Sanitize(value) == "" then ""
         else if HasDot(Sanitize(value)) then Shown(IntegerTyped(value)) + "." + Cut(DecimalsTyped(value), maxDecimals)
         else Shown(IntegerTyped(value))
  {
    TypedDigits(value);
    ShownSpec(IntegerTyped(value));
  }

  /** Deleting the commas gives back the digits typed: the integer part without its
      leading zeros (0 when nothing stands before the dot) and the decimals cut. */
  lemma {:induction false} CommasAreOnlyAdded(value: string, maxDecimals: nat)
    ensures Delete(NormalizeAmountInput(value, maxDecimals), ',')
      == if Sanitize(value) == "" then ""
         else if HasDot(Sanitize(value)) then
           OrZero(StripZeros(IntegerTyped(value))) + "." + Cut(DecimalsTyped(value), maxDecimals)
         else OrZero(StripZeros(IntegerTyped(value)))
    ensures var typed := IntegerTyped(value);
      Digits(typed) && Digits(StripZeros(typed)) && Number(StripZeros(typed)) == Number(typed)
  {
    TypedDigits(value);
    StripZerosSpec(IntegerTyped(value));
    NormalizeSpec(value, maxDecimals);
    var g, d := Shown(IntegerTyped(value)), Cut(DecimalsTyped(value), maxDecimals);
    ShownSpec(IntegerTyped(value));
    DigitsPlain(d);
    DeleteDotted(g, d, ',');
  }

  /** r is what s has of these characters, in order. */
  ghost predicate Kept(s: string, r: string, chars: string) {
    if s == "" then r == ""
    else
      var front, last := s[..|s| - 1], s[|s| - 1];
      if last in chars then r != "" && r[|r| - 1] == last && Kept(front, r[..|r| - 1], chars)
      else Kept(front, r, chars)
  }

  lemma {:induction false} KeptUnique(s: string, r: string, r': string, chars: string)
    requires Kept(s, r, chars) && Kept(s, r', chars)
    ensures r == r'
  {
    if s != "" {
      var front := s[..|s| - 1];
      if s[|s| - 1] in chars {
        KeptUnique(front, r[..|r| - 1], r'[..|r'| - 1], chars);
        assert r == r[..|r| - 1] + [r[|r| - 1]] && r' == r'[..|r'| - 1] + [r'[|r'| - 1]];
      } else {
        KeptUnique(front, r, r', chars);
      }
    }
  }

  lemma {:induction false} KeptSnoc(front: string, r: string, last: char, chars: string)
    requires Kept(front, r, chars)
    ensures Kept(front + [last], r + if last in chars then [last] else "", chars)
  {
    var s, t := front + [last], r + [last];
    assert s[..|s| - 1] == front && t[..|t| - 1] == r && r + "" == r;
  }

  lemma {:induction false} SanitizeKeeps(s: string)
    ensures Kept(s, Sanitize(s), "0123456789.")
  {
    if s != "" {
      var front, last := s[..|s| - 1], s[|s| - 1];
      SanitizeKeeps(front);
      KeptSnoc(front, Sanitize(front), last, "0123456789.");
      SanitizeJoins(front, [last]);
      assert s == front + [last] && [last][1..] == "";
      assert Sanitize([last]) == if last in "0123456789." then [last] else "";
    }
  }

  lemma {:induction false} UndottedKeeps(s: string)
    requires Sanitized(s)
    ensures Kept(s, Delete(s, '.'), "0123456789")
  {
    if s != "" {
      var front, last := s[..|s| - 1], s[|s| - 1];
      UndottedKeeps(front);
      KeptSnoc(front, Delete(front, '.'), last, "0123456789");
      DeleteJoins(front, [last], '.');
      assert s == front + [last] && [last][1..] == "";
      assert Delete([last], '.') == if last in "0123456789" then [last] else "";
    }
  }

  /** The field shows what was typed, as far as it can be an amount: nothing without a
      digit or a dot; else the number typed before the first dot, zero when there is none,
      and after a dot the first decimals typed, further dots left out. */
  lemma {:induction false} ShowsWhatWasTyped(value: string, maxDecimals: nat, typed: string, decimals: string)
    requires Kept(value, typed, "0123456789.")
    requires HasDot(typed) ==> Kept(typed[DotAt(typed) + 1..], decimals, "0123456789")
    ensures var r := NormalizeAmountInput(value, maxDecimals);
      && (r == "" <==> typed == "")
      && (HasDot(r) <==> HasDot(typed))
      && (HasDot(r) ==> r[DotAt(r) + 1..] <= decimals && |r| - DotAt(r) - 1
                        == if |decimals| <= maxDecimals then |decimals| else maxDecimals)
      && (r != "" ==>
            var shown, integer := r[..DotAt(r)], typed[..DotAt(typed)];
            && ShownInteger(shown) && shown != ""
            && Digits(Delete(shown, ',')) && Digits(integer) && Number(Delete(shown, ',')) == Number(integer))
  {
    TypedIs(value, typed, decimals);
    NormalizeSpec(value, maxDecimals);
    TypedDigits(value);
    ShownNumber(IntegerTyped(value));
    DotSplits(Shown(IntegerTyped(value)), Cut(DecimalsTyped(value), maxDecimals));
  }

  lemma {:induction false} TypedIs(value: string, typed: string, decimals: string)
    requires Kept(value, typed, "0123456789.")
    requires HasDot(typed) ==> Kept(typed[DotAt(typed) + 1..], decimals, "0123456789")
    ensures typed == Sanitize(value) && (HasDot(typed) ==> decimals == DecimalsTyped(value))
  {
    SanitizeKeeps(value);
    KeptUnique(value, typed, Sanitize(value), "0123456789.");
    SanitizeSpec(value);
    if HasDot(typed) {
      var rest := typed[DotAt(typed) + 1..];
      assert Sanitized(rest);
      DecimalsAre(rest, decimals);
    }
  }

  lemma {:induction false} DecimalsAre(rest: string, decimals: string)
    requires Sanitized(rest) && Kept(rest, decimals, "0123456789")
    ensures decimals == Delete(rest, '.')
  {
    UndottedKeeps(rest);
    KeptUnique(rest, decimals, Delete(rest, '.'), "0123456789");
  }

  lemma {:induction false} ShownNumber(integer: string)
    requires Digits(integer)
    ensures var g := Shown(integer);
      && ShownInteger(g) && g != "" && '.' !in g && DotAt(g) == |g| && g[..|g|] == g
      && Digits(Delete(g, ',')) && Number(Delete(g, ',')) == Number(integer)
  {
    ShownSpec(integer);
    StripZerosSpec(integer);
    var g, stripped := Shown(integer), StripZeros(integer);
    NoDotAt(g);
    assert Delete(g, ',') == OrZero(stripped);
    assert Digits(OrZero(stripped)) && Number(OrZero(stripped)) == Number(stripped) by { ZeroIsZero(); }
  }

  lemma {:induction false} ZeroIsZero()
    ensures Digits("0") && Digits("") && Number("0") == Number("")
  {
    assert "0"[..0] == "";
  }

  lemma {:induction false} NoDotAt(s: string)
    requires '.' !in s
    ensures DotAt(s) == |s| && s[..|s|] == s
  {
  }

  lemma {:induction false} AlwaysNormal(value: string, maxDecimals: nat)
    ensures Normal(NormalizeAmountInput(value, maxDecimals), maxDecimals)
  {
    TypedDigits(value);
    NormalizeSpec(value, maxDecimals);
    var g, d := Shown(IntegerTyped(value)), Cut(DecimalsTyped(value), maxDecimals);
    ShownSpec(IntegerTyped(value));
    DotSplits(g, d);
    assert g[..|g|] == g;
  }

  /** How a text with digits and commas before a dot is read. */
  lemma {:induction false} TypedDotted(g: string, d: string)
    requires '.' !in Sanitize(g) && Digits(d)
    ensures var s := g + "." + d;
      Sanitize(s) != "" && HasDot(Sanitize(s)) && IntegerTyped(s) == Sanitize(g) && DecimalsTyped(s) == d
  {
    SanitizeDotted(g, d);
    DigitsPlain(d);
    DotSplits(Sanitize(g), d);
  }

  lemma {:induction false} TypedPlain(g: string)
    requires '.' !in Sanitize(g)
    ensures !HasDot(Sanitize(g)) && IntegerTyped(g) == Sanitize(g) && DecimalsTyped(g) == ""
  {
    DotSplits(Sanitize(g), "");
  }

  /** A grouped integer part without leading zeros is shown as it stands. */
  lemma {:induction false} ShownAgain(g: string)
    requires ShownInteger(g)
    ensures Digits(Sanitize(g)) && Sanitize(g) != "" && Shown(Sanitize(g)) == g
  {
    var i := Delete(g, ',');
    SanitizeGrouped(g);
    GroupedLength(g);
    GroupIsUnique(g);
    assert IsDigit(g[0]) && g == [g[0]] + g[1..];
    DeletePush(g[0], g[1..], ',');
    assert i[0] == g[0] && |i| <= |g|;
    StripZerosSpec(i);
  }

  lemma {:induction false} DottedIsKept(g: string, d: string, maxDecimals: nat)
    requires ShownInteger(g) && Digits(d) && |d| <= maxDecimals
    ensures NormalizeAmountInput(g + "." + d, maxDecimals) == g + "." + d
  {
    ShownAgain(g);
    DigitsPlain(Sanitize(g));
    TypedDotted(g, d);
    NormalizeSpec(g + "." + d, maxDecimals);
  }

  lemma {:induction false} PlainIsKept(g: string, maxDecimals: nat)
    requires ShownInteger(g)
    ensures NormalizeAmountInput(g, maxDecimals) == g
  {
    ShownAgain(g);
    DigitsPlain(Sanitize(g));
    TypedPlain(g);
    NormalizeSpec(g, maxDecimals);
  }

  lemma {:induction false} NormalIsKept(s: string, maxDecimals: nat)
    requires Normal(s, maxDecimals)
    ensures NormalizeAmountInput(s, maxDecimals) == s
  {
    if s != "" {
      var k := DotAt(s);
      if k < |s| {
        assert s == s[..k] + "." + s[k + 1..];
        DottedIsKept(s[..k], s[k + 1..], maxDecimals);
      } else {
        assert s == s[..k];
        PlainIsKept(s[..k], maxDecimals);
      }
    }
  }

  /** The field leaves a text alone exactly when it is in normal form. */
  lemma {:induction false} KeptIff(s: string, maxDecimals: nat)
    ensures NormalizeAmountInput(s, maxDecimals) == s <==> Normal(s, maxDecimals)
  {
    AlwaysNormal(s, maxDecimals);
    if Normal(s, maxDecimals) { NormalIsKept(s, maxDecimals); }
  }

  /** Normalising twice is normalising once with the smaller number of decimals;
      with equal numbers, normalising is idempotent. */
  lemma {:induction false} NormalizeTwice(value: string, first: nat, second: nat)
    ensures NormalizeAmountInput(NormalizeAmountInput(value, first), second)
      == NormalizeAmountInput(value, if first <= second then first else second)
  {
    var once := NormalizeAmountInput(value, first);
    NormalizeSpec(value, first);
    NormalizeSpec(value, second);
    if Sanitize(value) != "" {
      TypedDigits(value);
      TypedOnce(value, first);
      ShownTwice(IntegerTyped(value));
      NormalizeSpec(once, second);
      NormalizeSpec(value, if first <= second then first else second);
    }
  }

  lemma {:induction false} ShownTwice(integer: string)
    requires Digits(integer)
    ensures Shown(OrZero(StripZeros(integer))) == Shown(integer)
  {
    StripZerosSpec(integer);
    StripZerosSpec(OrZero(integer));
    StripZerosSpec(OrZero(StripZeros(integer)));
  }

  /** What a normalised text counts as when it is read again. */
  lemma {:induction false} TypedOnce(value: string, most: nat)
    requires Sanitize(value) != ""
    ensures var once := NormalizeAmountInput(value, most);
      && Sanitize(once) != "" && HasDot(Sanitize(once)) == HasDot(Sanitize(value))
      && IntegerTyped(once) == OrZero(StripZeros(IntegerTyped(value)))
      && DecimalsTyped(once) == Cut(DecimalsTyped(value), most)
  {
    var integer, d := IntegerTyped(value), Cut(DecimalsTyped(value), most);
    TypedDigits(value);
    NormalizeSpec(value, most);
    TypedShown(integer);
    if HasDot(Sanitize(value)) {
      TypedDotted(Shown(integer), d);
    } else {
      TypedPlain(Shown(integer));
    }
  }

  lemma {:induction false} TypedShown(integer: string)
    requires Digits(integer)
    ensures Sanitize(Shown(integer)) == OrZero(StripZeros(integer)) != "" && '.' !in Sanitize(Shown(integer))
  {
    ShownSpec(integer);
    StripZerosSpec(integer);
    DigitsPlain(OrZero(StripZeros(integer)));
  }
}
