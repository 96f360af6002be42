/**
 The language of trigger conditions, stated without the parser: which texts it
 accepts, and what it reads them as.
 */
module ConditionGrammar {
  import opened Types
  import opened Conditions

  // --------------------------------------------------------------- blank and word

  /** ECMAScript's WhiteSpace and LineTerminator, and the four that end a line. */
  lemma {:induction false} BlanksAre(c: char)
    ensures IsSpace(c) <==>
      c as int in {0x9, 0xA, 0xB, 0xC, 0xD, 0x20, 0xA0, 0x1680, 0x2028, 0x2029, 0x202F, 0x205F, 0x3000, 0xFEFF}
      || 0x2000 <= c as int <= 0x200A
    ensures IsLineEnd(c) <==> c as int in {0xA, 0xD, 0x2028, 0x2029}
  {
  }

  /** ASCII letters, digits and the underscore. */
  lemma {:induction false} WordCharsAre(c: char)
    ensures IsWord(c) <==>
      var n := c as int; 0x30 <= n <= 0x39 || 0x41 <= n <= 0x5A || n == 0x5F || 0x61 <= n <= 0x7A
  {
  }

  predicate Blank(s: string) { forall i :: 0 <= i < |s| ==> IsSpace(s[i]) }

  predicate Word(s: string) { s != "" && forall i :: 0 <= i < |s| ==> IsWord(s[i]) }

  lemma {:induction false} TrimLeftIs(a: string, s: string)
    requires Blank(a) && (s != "" ==> !IsSpace(s[0]))
    ensures TrimLeft(a + s) == s
  {
    if a == "" {
      assert a + s == s;
    } else {
      assert (a + s)[1..] == a[1..] + s;
      TrimLeftIs(a[1..], s);
    }
  }

  lemma {:induction false} TrimRightIs(s: string, b: string)
    requires Blank(b) && (s != "" ==> !IsSpace(s[|s| - 1]))
    ensures TrimRight(s + b) == s
  {
    if b == "" {
      assert s + b == s;
    } else {
      assert (s + b)[..|s + b| - 1] == s + b[..|b| - 1];
      TrimRightIs(s, b[..|b| - 1]);
    }
  }

  /** Trimming takes away the blanks at both ends, and nothing else. */
  lemma {:induction false} TrimIs(a: string, s: string, b: string)
    requires Blank(a) && Trimmed(s) && Blank(b)
    ensures Trim(a + s + b) == s
  {
    assert a + s + b == a + (s + b);
    if s == "" {
      assert Blank(s + b) && Blank(a + (s + b));
      TrimLeftIs(a + (s + b), "");
      assert a + (s + b) + "" == a + (s + b);
    } else {
      TrimLeftIs(a, s + b);
      TrimRightIs(s, b);
    }
  }

  lemma {:induction false} TrimLeftTakes(s: string) returns (a: string)
    ensures Blank(a) && s == a + TrimLeft(s)
    ensures TrimLeft(s) != "" ==> !IsSpace(TrimLeft(s)[0])
  {
    if s != "" && IsSpace(s[0]) {
      var rest := TrimLeftTakes(s[1..]);
      a := [s[0]] + rest;
    } else {
      a := "";
    }
  }

  // -------------------------------------------------------------------- one rule

  /** The part is a word, blanks, an operator, blanks, and a text on one line. */
  ghost predicate Decomposes(part: string, field: string, b1: string, op: Operator, b2: string, text: string) {
    && part == field + b1 + Symbol(op) + b2 + text
    && Word(field) && Blank(b1) && Blank(b2) && text != "" && OneLine(text)
  }

  /** The part reads as the rule: with its operator and value, and no longer operator. */
  ghost predicate ReadsAs(part: string, r: Rule) {
    && (exists b1, b2, text :: Decomposes(part, r.field, b1, r.operator, b2, text) && r.value == Trim(text))
    && (forall f, b1, op, b2, text :: Decomposes(part, f, b1, op, b2, text) ==> |Symbol(op)| <= |Symbol(r.operator)|)
  }

  lemma {:induction false} SymbolsAre()
    ensures Symbol(Gt) == ">" && Symbol(Lt) == "<" && Symbol(Eq) == "=" && Symbol(Ge) == ">=" && Symbol(Le) == "<="
  {
  }

  lemma {:induction false} TailReads(s: string) returns (b: string)
    requires Tail(s).Some?
    ensures Blank(b) && s == b + Tail(s).value && Tail(s).value != "" && OneLine(Tail(s).value)
  {
    b := TrimLeftTakes(s);
    if TrimLeft(s) == "" {
      assert s == b;
      b := s[..|s| - 1];
    }
  }

  /** Any way to take the blanks leaves a text, with the same value. */
  lemma {:induction false} TailFinds(b: string, text: string)
    requires Blank(b) && text != "" && OneLine(text)
    ensures Tail(b + text).Some? && Trim(Tail(b + text).value) == Trim(text)
  {
    var a := TrimLeftTakes(text);
    var core := TrimLeft(text);
    assert b + text == (b + a) + core;
    assert Blank(b + a);
    TrimLeftIs(b + a, core);
    if core == "" {
      assert text == a;
      LastBlank(b + text);
      BlankTrims(text);
      assert (b + text)[|b + text| - 1] == text[|text| - 1];
    } else {
      assert forall i :: 0 <= i < |core| ==> core[i] == text[|a| + i];
      TrimmedTwice(text);
    }
  }

  lemma {:induction false} LastBlank(s: string)
    requires Blank(s) && s != ""
    ensures Trim(s[|s| - 1..]) == ""
  {
    BlankTrims(s[|s| - 1..]);
  }

  lemma {:induction false} TrimmedTwice(s: string)
    ensures Trim(TrimLeft(s)) == Trim(s)
  {
    var a := TrimLeftTakes(s);
    TrimLeftIs("", TrimLeft(s));
    assert "" + TrimLeft(s) == TrimLeft(s);
  }

  lemma {:induction false} BlankTrims(s: string)
    requires Blank(s)
    ensures Trim(s) == ""
  {
    TrimIs(s, "", "");
    assert s + "" + "" == s;
  }

  /** What the pattern has taken when it matches. */
  lemma {:induction false} Taken(part: string, r: Rule)
    requires MatchRule(part) == Some(r)
    ensures var n := WordLength(part); var rest, sym := TrimLeft(part[n..]), Symbol(r.operator);
      && Word(r.field) && r.field == part[..n] && sym <= rest
      && Tail(rest[|sym|..]).Some? && r.value == Trim(Tail(rest[|sym|..]).value)
  {
    var n := WordLength(part);
    WordLengthSpec(part);
    Alternatives(part[..n], TrimLeft(part[n..]));
    assert TryOperator(part[..n], TrimLeft(part[n..]), r.operator) == Some(r);
  }

  lemma {:induction false} PutTogether(f: string, b1: string, sym: string, b2: string, text: string)
    ensures f + (b1 + (sym + (b2 + text))) == f + b1 + sym + b2 + text
  {
  }

  lemma {:induction false} MatchSound(part: string, r: Rule)
    requires MatchRule(part) == Some(r)
    ensures exists b1, b2, text :: Decomposes(part, r.field, b1, r.operator, b2, text) && r.value == Trim(text)
  {
    Taken(part, r);
    var n, sym := WordLength(part), Symbol(r.operator);
    var b1 := TrimLeftTakes(part[n..]);
    var after := TrimLeft(part[n..])[|sym|..];
    var b2 := TailReads(after);
    var text := Tail(after).value;
    assert part == part[..n] + part[n..];
    assert TrimLeft(part[n..]) == sym + after;
    PutTogether(part[..n], b1, sym, b2, text);
    assert Decomposes(part, r.field, b1, r.operator, b2, text);
  }

  lemma {:induction false} MatchComplete(part: string, f: string, b1: string, op: Operator, b2: string, text: string)
    requires Decomposes(part, f, b1, op, b2, text)
    ensures MatchRule(part).Some?
    ensures var r := MatchRule(part).value;
      && r.field == f && |Symbol(op)| <= |Symbol(r.operator)|
      && (r.operator == op ==> r.value == Trim(text))
      && Symbol(r.operator)[0] == Symbol(op)[0]
  {
    var sym := Symbol(op);
    var rest := sym + (b2 + text);
    SymbolChars(op, 0);
    assert part == f + (b1 + rest);
    if b1 != "" { WordsAreNotSpace(b1[0]); }
    WordLengthIs(f, b1 + rest);
    assert part[|f|..] == b1 + rest && part[..|f|] == f;
    TrimLeftIs(b1, rest);
    TailFinds(b2, text);
    assert rest[|sym|..] == b2 + text;
    assert TryOperator(f, rest, op) == Some(Rule(f, op, Trim(text)));
    FirstIsLongest(f, rest, op);
  }

  lemma {:induction false} FirstIsLongest(f: string, rest: string, op: Operator)
    requires TryOperator(f, rest, op).Some?
    ensures var r := FirstMatch(f, rest, ALTERNATIVES);
      && r.Some? && r.value.field == f && |Symbol(op)| <= |Symbol(r.value.operator)|
      && r == TryOperator(f, rest, r.value.operator)
      && Symbol(r.value.operator)[0] == Symbol(op)[0]
  {
    Alternatives(f, rest);
    assert forall o: Operator :: Symbol(o) <= rest ==> rest[0] == Symbol(o)[0];
    assert op.Ge? || op.Le? ==> rest[1] == '=';
  }

  /** The pattern accepts exactly the parts that read as a rule, and gives that rule. */
  lemma {:induction false} MatchIff(part: string, r: Rule)
    ensures MatchRule(part) == Some(r) <==> ReadsAs(part, r)
  {
    if MatchRule(part) == Some(r) {
      MatchSound(part, r);
      forall f, b1, op, b2, text | Decomposes(part, f, b1, op, b2, text)
        ensures |Symbol(op)| <= |Symbol(r.operator)|
      {
        MatchComplete(part, f, b1, op, b2, text);
      }
    }
    if ReadsAs(part, r) {
      var b1, b2, text :| Decomposes(part, r.field, b1, r.operator, b2, text) && r.value == Trim(text);
      MatchComplete(part, r.field, b1, r.operator, b2, text);
      MatchSound(part, MatchRule(part).value);
    }
  }

  // --------------------------------------------------------------- the whole text

  predicate SeparatorAt(s: string, j: nat) { j + 5 <= |s| && s[j..j + 5] == " AND " }

  predicate SeparatorFree(s: string, upTo: nat) { forall j :: 0 <= j < upTo ==> !SeparatorAt(s, j) }

  /** The pieces between the separators, taken from the left. */
  ghost predicate Separated(s: string, pieces: seq<string>) {
    && pieces != []
    && if |pieces| == 1 then s == pieces[0] && SeparatorFree(s, |s|)
       else
         var n := |pieces[0]|;
         && SeparatorFree(s, n) && SeparatorAt(s, n) && s[..n] == pieces[0]
         && Separated(s[n + 5..], pieces[1..])
  }

  /** Each piece but the blank ones reads, trimmed, as the next rule. */
  ghost predicate AllRead(pieces: seq<string>, rules: seq<Rule>) {
    if pieces == [] then rules == []
    else if Blank(pieces[0]) then AllRead(pieces[1..], rules)
    else rules != [] && ReadsAs(Trim(pieces[0]), rules[0]) && AllRead(pieces[1..], rules[1..])
  }

  lemma {:induction false} FindsSeparator(s: string)
    ensures Find(s).Some? ==> SeparatorAt(s, Find(s).value) && SeparatorFree(s, Find(s).value)
    ensures Find(s).None? ==> SeparatorFree(s, |s|)
  {
    FindSpec(s);
    forall j | 0 <= j <= |s| ensures SepAt(s, j) <==> SeparatorAt(s, j) {
      if j + 5 <= |s| { assert s[j..][..5] == s[j..j + 5]; }
    }
  }

  lemma {:induction false} SplitSeparates(s: string)
    ensures Separated(s, Split(s))
    decreases |s|
  {
    FindsSeparator(s);
    if Find(s).Some? {
      var n := Find(s).value;
      SplitSeparates(s[n + 5..]);
      assert Split(s)[1..] == Split(s[n + 5..]);
    }
  }

  lemma {:induction false} SeparatedOnce(s: string, pieces: seq<string>)
    requires Separated(s, pieces)
    ensures pieces == Split(s)
    decreases |s|
  {
    FindsSeparator(s);
    var n := |pieces[0]|;
    if |pieces| == 1 {
      assert pieces == [s];
    } else {
      assert SeparatorAt(s, n);
      SeparatedOnce(s[n + 5..], pieces[1..]);
      assert pieces == [pieces[0]] + pieces[1..];
    }
  }

  lemma {:induction false} TrimmedAway(s: string)
    ensures Trim(s) == "" <==> Blank(s)
  {
    if Blank(s) {
      BlankTrims(s);
    } else {
      var a := TrimLeftTakes(s);
      TrimRightSpec(TrimLeft(s));
    }
  }

  lemma {:induction false} MatchAllIff(pieces: seq<string>, rules: seq<Rule>)
    ensures MatchAll(CleanParts(pieces)) == Some(rules) <==> AllRead(pieces, rules)
  {
    if pieces != [] {
      var rest := pieces[1..];
      TrimmedAway(pieces[0]);
      if Blank(pieces[0]) {
        assert CleanParts(pieces) == CleanParts(rest);
        MatchAllIff(rest, rules);
      } else {
        var parts := CleanParts(pieces);
        assert parts == [Trim(pieces[0])] + CleanParts(rest);
        assert parts[0] == Trim(pieces[0]) && parts[1..] == CleanParts(rest);
        if rules != [] {
          MatchIff(Trim(pieces[0]), rules[0]);
          MatchAllIff(rest, rules[1..]);
          MatchedRules(parts, rules);
        }
      }
    }
  }

  lemma {:induction false} MatchedRules(parts: seq<string>, rules: seq<Rule>)
    requires parts != [] && rules != []
    ensures MatchAll(parts) == Some(rules) <==>
      MatchRule(parts[0]) == Some(rules[0]) && MatchAll(parts[1..]) == Some(rules[1..])
  {
    assert rules == [rules[0]] + rules[1..];
    var first, others := MatchRule(parts[0]), MatchAll(parts[1..]);
    if first.Some? && others.Some? {
      assert ([first.value] + others.value)[0] == first.value;
      assert ([first.value] + others.value)[1..] == others.value;
    }
  }

  lemma {:induction false} BlankReadsNothing(pieces: seq<string>)
    ensures AllRead(pieces, []) <==> CleanParts(pieces) == []
  {
    if pieces != [] {
      TrimmedAway(pieces[0]);
      BlankReadsNothing(pieces[1..]);
    }
  }

  lemma {:induction false} NotBlank(s: string, n: nat)
    requires SeparatorAt(s, n)
    ensures !Blank(s)
  {
    assert s[n + 1] == s[n..n + 5][1];
  }

  lemma {:induction false} BlankPieces(s: string, pieces: seq<string>)
    requires Blank(s) && Separated(s, pieces)
    ensures AllRead(pieces, [])
  {
    assert |pieces| == 1 by {
      if |pieces| > 1 { NotBlank(s, |pieces[0]|); }
    }
    assert pieces[1..] == [];
  }

  /** The parser reads a text as these rules exactly when its pieces, the blank ones
      left out, read as them, one by one and all of them; with none it is undefined. */
  lemma {:induction false} ParseIff(condition: string, rules: seq<Rule>)
    ensures Parse(condition) == Some(rules) <==>
      rules != [] && exists pieces :: Separated(condition, pieces) && AllRead(pieces, rules)
  {
    var pieces := Split(condition);
    SplitSeparates(condition);
    forall other | Separated(condition, other) ensures other == pieces { SeparatedOnce(condition, other); }
    MatchAllIff(pieces, rules);
    BlankReadsNothing(pieces);
    TrimmedAway(condition);
    if Blank(condition) {
      BlankPieces(condition, pieces);
      if AllRead(pieces, rules) { OnlyNothing(pieces, rules); }
    }
    if Parse(condition) == Some(rules) { ParsedSomething(CleanParts(pieces)); }
  }

  lemma {:induction false} OnlyNothing(pieces: seq<string>, rules: seq<Rule>)
    requires AllRead(pieces, []) && AllRead(pieces, rules)
    ensures rules == []
  {
    if pieces != [] { OnlyNothing(pieces[1..], rules); }
  }

  lemma {:induction false} ParsedSomething(parts: seq<string>)
    requires parts != [] && MatchAll(parts).Some?
    ensures MatchAll(parts).value != []
  {
  }

  // ------------------------------------------------------------------ the printer

  /** The text lists the rules with a value, from the last to the first. */
  ghost predicate Lists(s: string, rules: seq<Rule>) {
    if rules == [] then s == ""
    else
      var front, r := rules[..|rules| - 1], rules[|rules| - 1];
      var printed := r.field + " " + Symbol(r.operator) + " " + r.value;
      if Blank(r.value) then Lists(s, front)
      else if forall i :: 0 <= i < |front| ==> Blank(front[i].value) then s == printed
      else
        && |s| >= |printed| + 5 && s[|s| - |printed| - 5..] == " AND " + printed
        && Lists(s[..|s| - |printed| - 5], front)
  }

  lemma {:induction false} KeptSnoc(front: seq<Rule>, r: Rule)
    ensures Kept(front + [r]) == Kept(front) + if Blank(r.value) then [] else [r]
  {
    TrimmedAway(r.value);
    if front == [] {
      assert front + [r] == [r] && [r][1..] == [];
    } else {
      assert (front + [r])[1..] == front[1..] + [r];
      KeptSnoc(front[1..], r);
    }
  }

  lemma {:induction false} NothingKept(rules: seq<Rule>)
    ensures Kept(rules) == [] <==> forall i :: 0 <= i < |rules| ==> Blank(rules[i].value)
  {
    if rules != [] {
      TrimmedAway(rules[0].value);
      NothingKept(rules[1..]);
      assert forall i :: 1 <= i < |rules| ==> rules[i] == rules[1..][i - 1];
    }
  }

  lemma {:induction false} JoinSnoc(rules: seq<Rule>, r: Rule)
    requires rules != []
    ensures Join(rules + [r]) == Join(rules) + (" AND " + PrintRule(r))
  {
    var all := rules + [r];
    assert all[1..] == rules[1..] + [r];
    if |rules| == 1 {
      assert all[1..] == [r];
      assert Join(all) == PrintRule(rules[0]) + SEP + Join([r]);
    } else {
      JoinSnoc(rules[1..], r);
      var first := PrintRule(rules[0]) + SEP;
      assert first + (Join(rules[1..]) + (" AND " + PrintRule(r)))
          == first + Join(rules[1..]) + (" AND " + PrintRule(r));
    }
  }

  /** The builder prints exactly that. */
  lemma {:induction false} PrintLists(rules: seq<Rule>)
    ensures Lists(Print(rules), rules)
  {
    if rules != [] {
      var front, r := rules[..|rules| - 1], rules[|rules| - 1];
      assert rules == front + [r];
      KeptSnoc(front, r);
      NothingKept(front);
      PrintLists(front);
      if Blank(r.value) {
        assert Kept(front) + [] == Kept(front);
      } else if Kept(front) == [] {
        assert Kept(rules) == [r];
      } else {
        JoinSnoc(Kept(front), r);
      }
    }
  }
}
