/**
 Trigger conditions: the builder prints rules to a string and the policy form
 parses the string back.  Characters are compared as JavaScript does for \s, \w
 and the dot of a regular expression.
 */
module Conditions {
  import opened Types

  datatype Operator = Gt | Lt | Eq | Ge | Le

  function Symbol(op: Operator): (s: string)
    ensures 1 <= |s| <= 2
  {
    match op
    case Gt => ">"
    case Lt => "<"
    case Eq => "="
    case Ge => ">="
    case Le => "<="
  }

  datatype Rule = Rule(field: string, operator: Operator, value: string)

  const SEP: string := " AND "

  // ---------------------------------------------------------------- characters

  predicate IsLineEnd(c: char) { c == '\n' || c == '\r' || c == '\U{2028}' || c == '\U{2029}' }

  predicate IsSpace(c: char) {
    c == ' ' || c == '\t' || c == '\U{000B}' || c == '\U{000C}' || c == '\U{00A0}' || c == '\U{FEFF}'
    || c == '\U{1680}' || ('\U{2000}' <= c <= '\U{200A}') || c == '\U{202F}' || c == '\U{205F}' || c == '\U{3000}'
    || IsLineEnd(c)
  }

  predicate IsWord(c: char) {
    'a' <= c <= 'z' || 'A' <= c <= 'Z' || '0' <= c <= '9' || c == '_'
  }

  function TrimLeft(s: string): string {
    if s != "" && IsSpace(s[0]) then TrimLeft(s[1..]) else s
  }

  function TrimRight(s: string): string {
    if s != "" && IsSpace(s[|s| - 1]) then TrimRight(s[..|s| - 1]) else s
  }

  function Trim(s: string): string { TrimRight(TrimLeft(s)) }

  predicate Trimmed(s: string) { s != "" ==> !IsSpace(s[0]) && !IsSpace(s[|s| - 1]) }

  lemma {:induction false} TrimLeftSpec(s: string)
    ensures |TrimLeft(s)| <= |s| && TrimLeft(s) == s[|s| - |TrimLeft(s)|..]
    ensures TrimLeft(s) != "" ==> !IsSpace(TrimLeft(s)[0])
  {
    if s != "" && IsSpace(s[0]) { TrimLeftSpec(s[1..]); }
  }

  lemma {:induction false} TrimRightSpec(s: string)
    ensures TrimRight(s) <= s
    ensures TrimRight(s) != "" ==> !IsSpace(TrimRight(s)[|TrimRight(s)| - 1])
    ensures forall i :: |TrimRight(s)| <= i < |s| ==> IsSpace(s[i])
  {
    if s != "" && IsSpace(s[|s| - 1]) { TrimRightSpec(s[..|s| - 1]); }
  }

  lemma {:induction false} TrimOfTrimmed(s: string)
    ensures Trimmed(Trim(s))
    ensures Trimmed(s) ==> Trim(s) == s
    ensures |Trim(s)| <= |s|
    ensures forall i :: 0 <= i < |Trim(s)| ==> Trim(s)[i] in s
  {
    TrimLeftSpec(s);
    TrimRightSpec(TrimLeft(s));
    var l := TrimLeft(s);
    if Trim(s) != "" { assert Trim(s)[0] == l[0]; }
    forall i | 0 <= i < |Trim(s)| ensures Trim(s)[i] in s {
      assert Trim(s)[i] == l[i] == s[|s| - |l| + i];
    }
  }

  lemma {:induction false} TrimKeepsStart(s: string)
    requires s != "" && !IsSpace(s[0])
    ensures Trim(s) != "" && Trim(s) <= s
    ensures forall k :: 0 <= k < |s| && !IsSpace(s[k]) ==> k < |Trim(s)|
  {
    assert TrimLeft(s) == s;
    TrimRightSpec(s);
  }

  // ------------------------------------------------------------------ the printer

  function Kept(rules: seq<Rule>): seq<Rule> {
    if rules == [] then []
    else (if Trim(rules[0].value) != "" then [rules[0]] else []) + Kept(rules[1..])
  }

  function PrintRule(r: Rule): string { r.field + " " + Symbol(r.operator) + " " + r.value }

  function Join(rules: seq<Rule>): string {
    if rules == [] then ""
    else if |rules| == 1 then PrintRule(rules[0])
    else PrintRule(rules[0]) + SEP + Join(rules[1..])
  }

  /** notifyChange: drop blank values, print each rule, join with AND. */
  function Print(rules: seq<Rule>): string { Join(Kept(rules)) }

  // ------------------------------------------------------------------- the parser

  /** The position of the first separator. */
  function Find(s: string): (r: Option<nat>)
    ensures r.Some? ==> r.value + |SEP| <= |s|
  {
    if SEP <= s then Some(0)
    else if s == "" then None
    else
      var r := Find(s[1..]);
      if r.Some? then Some(r.value + 1) else None
  }

  predicate SepAt(s: string, j: nat)
    requires j <= |s|
  {
    SEP <= s[j..]
  }

  lemma {:induction false} FindSpec(s: string)
    ensures Find(s).Some? ==> SepAt(s, Find(s).value) && forall j :: 0 <= j < Find(s).value ==> !SepAt(s, j)
    ensures Find(s).None? ==> forall j :: 0 <= j <= |s| ==> !SepAt(s, j)
  {
    if !(SEP <= s) && s != "" {
      FindSpec(s[1..]);
      forall j | 1 <= j <= |s| ensures SepAt(s, j) <==> SepAt(s[1..], j - 1) {
        assert s[j..] == s[1..][j - 1..];
      }
      assert s[0..] == s;
    }
  }

  lemma {:induction false} SepChars(s: string, j: nat)
    requires j <= |s|
    ensures SepAt(s, j) <==>
      && j + 5 <= |s| && s[j] == ' ' && s[j + 1] == 'A' && s[j + 2] == 'N' && s[j + 3] == 'D' && s[j + 4] == ' '
  {
    if j + 5 <= |s| {
      assert s[j..][..5] == s[j..j + 5];
      assert s[j..j + 5] == [s[j], s[j + 1], s[j + 2], s[j + 3], s[j + 4]];
    }
  }

  function Split(s: string): (parts: seq<string>)
    ensures parts != []
    decreases |s|
  {
    var i := Find(s);
    if i.None? then [s] else [s[..i.value]] + Split(s[i.value + |SEP|..])
  }

  /** Each piece trimmed, the empty ones dropped. */
  function CleanParts(parts: seq<string>): seq<string> {
    if parts == [] then []
    else (if Trim(parts[0]) != "" then [Trim(parts[0])] else []) + CleanParts(parts[1..])
  }

  function WordLength(s: string): (n: nat)
    ensures n <= |s|
  {
    if s != "" && IsWord(s[0]) then 1 + WordLength(s[1..]) else 0
  }

  lemma {:induction false} WordLengthIs(f: string, u: string)
    requires forall i :: 0 <= i < |f| ==> IsWord(f[i])
    requires u != "" && !IsWord(u[0])
    ensures WordLength(f + u) == |f|
  {
    if f == "" {
      assert f + u == u;
    } else {
      assert (f + u)[1..] == f[1..] + u;
      WordLengthIs(f[1..], u);
    }
  }

  predicate OneLine(s: string) { forall i :: 0 <= i < |s| ==> !IsLineEnd(s[i]) }

  /** What `\s*(.+)$` captures: the text after the leading blanks, or, when there
      is nothing else, the last blank given back. */
  function Tail(s: string): Option<string> {
    var text := TrimLeft(s);
    if text != "" then (if OneLine(text) then Some(text) else None)
    else if s != "" && !IsLineEnd(s[|s| - 1]) then Some(s[|s| - 1..])
    else None
  }

  function TryOperator(field: string, rest: string, op: Operator): Option<Rule> {
    if Symbol(op) <= rest && Tail(rest[|Symbol(op)|..]).Some? then
      Some(Rule(field, op, Trim(Tail(rest[|Symbol(op)|..]).value)))
    else None
  }

  /** The alternatives of the pattern, in its order. */
  const ALTERNATIVES: seq<Operator> := [Ge, Le, Gt, Lt, Eq]

  function FirstMatch(field: string, rest: string, ops: seq<Operator>): Option<Rule> {
    if ops == [] then None
    else if TryOperator(field, rest, ops[0]).Some? then TryOperator(field, rest, ops[0])
    else FirstMatch(field, rest, ops[1..])
  }

  /** One part against `^(\w+)\s*(>=|<=|>|<|=)\s*(.+)$`.  The word and the blanks
      before the operator cannot be matched in two ways; the alternatives for the
      operator are tried in order, a later one when an earlier one leads nowhere. */
  function MatchRule(part: string): Option<Rule> {
    var n := WordLength(part);
    if n == 0 then None else FirstMatch(part[..n], TrimLeft(part[n..]), ALTERNATIVES)
  }

  function MatchAll(parts: seq<string>): Option<seq<Rule>> {
    if parts == [] then Some([])
    else
      var first := MatchRule(parts[0]);
      if first.None? then None
      else
        var others := MatchAll(parts[1..]);
        if others.None? then None else Some([first.value] + others.value)
  }

  /** parseConditionString; None is undefined. */
  function Parse(condition: string): Option<seq<Rule>> {
    if Trim(condition) == "" then None
    else
      var parts := CleanParts(Split(condition));
      if parts == [] then None else MatchAll(parts)
  }

  /** The parser in its own form: a loop that pushes rules and gives up at the
      first part that does not match. */
  method ParseConditionString(condition: string) returns (r: Option<seq<Rule>>)
    ensures r == Parse(condition)
  {
    if Trim(condition) == "" { return None; }
    var parts := CleanParts(Split(condition));
    if |parts| == 0 { return None; }
    var rules: seq<Rule> := [];
    PrependNothing(parts);
    for i := 0 to |parts|
      invariant MatchAll(parts) == Prepend(rules, MatchAll(parts[i..]))
      invariant |rules| == i
    {
      MatchStep(parts, i, rules);
      var matched := MatchRule(parts[i]);
      if matched.None? { return None; }
      rules := rules + [matched.value];
    }
    assert parts[|parts|..] == [];
    assert rules + [] == rules;
    return if |rules| > 0 then Some(rules) else None;
  }

  function Prepend(rules: seq<Rule>, others: Option<seq<Rule>>): Option<seq<Rule>> {
    if others.None? then None else Some(rules + others.value)
  }

  lemma {:induction false} PrependNothing(parts: seq<string>)
    ensures Prepend([], MatchAll(parts[0..])) == MatchAll(parts)
  {
    assert parts[0..] == parts;
    var others := MatchAll(parts);
    if others.Some? { assert [] + others.value == others.value; }
  }

  lemma {:induction false} MatchStep(parts: seq<string>, i: nat, rules: seq<Rule>)
    requires i < |parts|
    ensures var first := MatchRule(parts[i]);
      Prepend(rules, MatchAll(parts[i..]))
        == if first.None? then None else Prepend(rules + [first.value], MatchAll(parts[i + 1..]))
  {
    assert parts[i..][0] == parts[i] && parts[i..][1..] == parts[i + 1..];
    var first, others := MatchRule(parts[i]), MatchAll(parts[i + 1..]);
    if first.Some? && others.Some? {
      assert rules + ([first.value] + others.value) == rules + [first.value] + others.value;
    }
  }

  // ------------------------------------------------------------- one printed rule

  predicate WordField(r: Rule) { r.field != "" && forall i :: 0 <= i < |r.field| ==> IsWord(r.field[i]) }

  /** The text in which a value could form a separator with the blanks around it. */
  function Frame(v: string, isLast: bool): string { " " + v + (if isLast then "" else " ") }

  /** A value the parser gives back: trimmed, on one line, and making no separator
      with the blanks printed around it. */
  predicate Clean(v: string, isLast: bool) {
    Trimmed(v) && OneLine(v) && Find(Frame(v, isLast)).None?
  }

  predicate AllClean(rules: seq<Rule>) {
    forall i :: 0 <= i < |rules| ==> Clean(rules[i].value, i == |rules| - 1)
  }

  function Head(r: Rule): string { r.field + " " + Symbol(r.operator) }

  lemma {:induction false} WordsAreNotSpace(c: char)
    ensures IsWord(c) ==> !IsSpace(c)
  {
  }

  lemma {:induction false} SymbolChars(op: Operator, i: nat)
    requires i < |Symbol(op)|
    ensures var c := Symbol(op)[i]; !IsSpace(c) && !IsWord(c) && c != 'A'
  {
  }

  /** A part that starts with a word and a blank is matched on what follows. */
  lemma {:induction false} MatchAfterField(f: string, rest: string)
    requires f != "" && forall i :: 0 <= i < |f| ==> IsWord(f[i])
    ensures WordLength(f + " " + rest) == |f|
    ensures (f + " " + rest)[..|f|] == f
    ensures TrimLeft((f + " " + rest)[|f|..]) == TrimLeft(rest)
  {
    assert f + " " + rest == f + (" " + rest);
    WordLengthIs(f, " " + rest);
    assert (f + " " + rest)[|f|..] == " " + rest;
    assert (" " + rest)[1..] == rest;
  }

  /** On a printed operator, only the operator itself matches in the order tried:
      the blank after it keeps the longer ones from matching. */
  lemma {:induction false} MatchSymbol(r: Rule, rest: string)
    requires r.value != "" && Trimmed(r.value) && OneLine(r.value)
    requires rest == Symbol(r.operator) + " " + r.value
    ensures FirstMatch(r.field, rest, ALTERNATIVES) == Some(r)
  {
    var n := |Symbol(r.operator)|;
    assert rest[n] == ' ' && forall i :: 0 <= i < n ==> rest[i] == Symbol(r.operator)[i];
    TailAfterBlank(r.value);
    assert rest[n..] == " " + r.value;
    assert TryOperator(r.field, rest, r.operator) == Some(r);
    Alternatives(r.field, rest);
    if r.operator != Ge { NotAPrefix(rest, Ge, r.operator); }
    if r.operator !in {Ge, Le} { NotAPrefix(rest, Le, r.operator); }
    if r.operator in {Lt, Eq} { NotAPrefix(rest, Gt, r.operator); }
    if r.operator == Eq { NotAPrefix(rest, Lt, r.operator); }
  }

  lemma {:induction false} NotAPrefix(rest: string, other: Operator, op: Operator)
    requires Symbol(op) + " " <= rest && other != op
    requires |Symbol(op)| <= |Symbol(other)|
    ensures !(Symbol(other) <= rest)
  {
    assert (Symbol(op) + " ")[|Symbol(op)|] == ' ';
    assert forall i :: 0 <= i <= |Symbol(op)| ==> rest[i] == (Symbol(op) + " ")[i];
    assert rest[0] == Symbol(op)[0];
  }

  lemma {:induction false} Alternatives(f: string, rest: string)
    ensures FirstMatch(f, rest, ALTERNATIVES)
      == if TryOperator(f, rest, Ge).Some? then TryOperator(f, rest, Ge)
         else if TryOperator(f, rest, Le).Some? then TryOperator(f, rest, Le)
         else if TryOperator(f, rest, Gt).Some? then TryOperator(f, rest, Gt)
         else if TryOperator(f, rest, Lt).Some? then TryOperator(f, rest, Lt)
         else TryOperator(f, rest, Eq)
  {
    FirstMatchStep(f, rest, Eq, []);
    FirstMatchStep(f, rest, Lt, [Eq]);
    FirstMatchStep(f, rest, Gt, [Lt, Eq]);
    FirstMatchStep(f, rest, Le, [Gt, Lt, Eq]);
    FirstMatchStep(f, rest, Ge, [Le, Gt, Lt, Eq]);
    assert [Eq] + [] == [Eq] && [Lt] + [Eq] == [Lt, Eq] && [Gt] + [Lt, Eq] == [Gt, Lt, Eq];
    assert [Le] + [Gt, Lt, Eq] == [Le, Gt, Lt, Eq] && [Ge] + [Le, Gt, Lt, Eq] == ALTERNATIVES;
  }

  lemma {:induction false} FirstMatchStep(f: string, rest: string, op: Operator, ops: seq<Operator>)
    ensures FirstMatch(f, rest, [op] + ops)
      == if TryOperator(f, rest, op).Some? then TryOperator(f, rest, op) else FirstMatch(f, rest, ops)
  {
    assert ([op] + ops)[1..] == ops;
  }

  lemma {:induction false} TailAfterBlank(v: string)
    requires v != "" && Trimmed(v) && OneLine(v)
    ensures Tail(" " + v) == Some(v) && Trim(v) == v
  {
    assert (" " + v)[1..] == v;
    assert TrimLeft(" " + v) == TrimLeft(v) == v;
    TrimOfTrimmed(v);
  }

  lemma {:induction false} MatchPrinted(r: Rule)
    requires WordField(r) && r.value != "" && Trimmed(r.value) && OneLine(r.value)
    ensures MatchRule(PrintRule(r)) == Some(r)
  {
    var rest := Symbol(r.operator) + " " + r.value;
    assert PrintRule(r) == r.field + " " + rest;
    MatchAfterField(r.field, rest);
    SymbolChars(r.operator, 0);
    assert rest[0] == Symbol(r.operator)[0];
    assert TrimLeft(rest) == rest;
    MatchSymbol(r, rest);
  }

  // ---------------------------------------------------------- the first separator

  /** Where the first separator of a printed condition falls: after the first rule
      when its value is free of separators, and inside or before the value otherwise. */
  lemma {:induction false} FirstSeparator(r: Rule, tail: string)
    requires WordField(r)
    requires tail == "" || SEP <= tail
    ensures var whole := PrintRule(r) + tail;
      && (Find(Frame(r.value, tail == "")).None? ==> Find(whole) == if tail == "" then None else Some(|PrintRule(r)|))
      && (Find(Frame(r.value, tail == "")).Some? ==>
            Find(whole).Some? && |Head(r)| <= Find(whole).value < |PrintRule(r)|)
  {
    var whole, h, m := PrintRule(r) + tail, |Head(r)|, |PrintRule(r)|;
    var framed := Frame(r.value, tail == "");
    FindSpec(whole);
    FindSpec(framed);
    forall j | 0 <= j < h ensures !SepAt(whole, j) { NoSeparatorInHead(r, tail, j); }
    forall j | h <= j < m ensures j - h <= |framed| && (SepAt(whole, j) <==> SepAt(framed, j - h)) {
      SeparatorInFrame(r, tail, j);
    }
    if tail != "" {
      assert whole[m..] == tail;
      assert SepAt(whole, m);
      assert !SepAt(framed, |framed|) by { SepChars(framed, |framed|); }
      assert !SepAt(framed, |framed| - 1) by { SepChars(framed, |framed| - 1); }
    } else {
      assert !SepAt(whole, m) by { SepChars(whole, m); }
      assert !SepAt(framed, |framed|) by { SepChars(framed, |framed|); }
    }
    if Find(framed).Some? {
      var k := Find(framed).value;
      SepChars(framed, k);
      assert SepAt(whole, k + h);
    }
  }

  lemma {:induction false} NoSeparatorInHead(r: Rule, tail: string, j: nat)
    requires WordField(r) && j < |Head(r)|
    ensures !SepAt(PrintRule(r) + tail, j)
  {
    var s := PrintRule(r) + tail;
    SepChars(s, j);
    if j < |r.field| {
      assert s[j] == r.field[j];
      WordsAreNotSpace(s[j]);
    } else if j == |r.field| {
      assert s[j + 1] == Symbol(r.operator)[0];
      SymbolChars(r.operator, 0);
    } else {
      assert s[j] == Symbol(r.operator)[j - |r.field| - 1];
      SymbolChars(r.operator, j - |r.field| - 1);
    }
  }

  /** A separator that starts before the tail ends with the tail's first blank at
      the latest, so it lies within the framed value. */
  lemma {:induction false} SeparatorInFrame(r: Rule, tail: string, j: nat)
    requires tail == "" || SEP <= tail
    requires |Head(r)| <= j < |PrintRule(r)|
    ensures j - |Head(r)| <= |Frame(r.value, tail == "")|
    ensures SepAt(PrintRule(r) + tail, j) <==> SepAt(Frame(r.value, tail == ""), j - |Head(r)|)
  {
    var whole, h, m := PrintRule(r) + tail, |Head(r)|, |PrintRule(r)|;
    var framed := Frame(r.value, tail == "");
    SepChars(whole, j);
    SepChars(framed, j - h);
    assert forall i :: h <= i < m ==> whole[i] == framed[i - h];
    if tail != "" {
      assert whole[m] == tail[0] == SEP[0] == ' ';
      assert framed[m - h] == ' ';
    }
  }

  // --------------------------------------------------------------- the round trip

  /** What the parser makes of the pieces of a non-blank condition. */
  function Pieces(s: string): Option<seq<Rule>> { MatchAll(CleanParts(Split(s))) }

  /** A matched rule's value is trimmed, on one line, and fits in what the part
      holds after the field, one blank and the operator. */
  lemma {:induction false} MatchedValue(f: string, rest: string, r: Rule)
    requires f != "" && forall i :: 0 <= i < |f| ==> IsWord(f[i])
    requires MatchRule(f + " " + rest) == Some(r)
    ensures r.field == f && Trimmed(r.value) && OneLine(r.value)
    ensures |Symbol(r.operator)| + |r.value| <= |rest|
  {
    MatchAfterField(f, rest);
    TrimLeftSpec(rest);
    var sym, text := Symbol(r.operator), TrimLeft(rest);
    Alternatives(f, text);
    assert TryOperator(f, text, r.operator) == Some(r);
    TailSpec(text[|sym|..]);
    var t := Tail(text[|sym|..]).value;
    TrimOfTrimmed(t);
    forall i | 0 <= i < |r.value| ensures !IsLineEnd(r.value[i]) {
      assert r.value[i] in t;
    }
  }

  lemma {:induction false} TailSpec(s: string)
    ensures Tail(s).Some? ==> OneLine(Tail(s).value) && |Tail(s).value| <= |s|
  {
    TrimLeftSpec(s);
  }

  /** A piece that begins with a printed head keeps that head when trimmed. */
  lemma {:induction false} TrimKeepsHead(r: Rule, piece: string)
    requires WordField(r) && Head(r) <= piece
    ensures Head(r) <= Trim(piece) <= piece
  {
    var h := |Head(r)|;
    assert piece[0] == Head(r)[0] == r.field[0];
    assert piece[h - 1] == Head(r)[h - 1] == Symbol(r.operator)[|Symbol(r.operator)| - 1];
    WordsAreNotSpace(piece[0]);
    SymbolChars(r.operator, |Symbol(r.operator)| - 1);
    TrimKeepsStart(piece);
    assert piece[..h] == Head(r);
  }

  /** A piece that begins with a printed head and matches back to the rule holds
      the whole of a trimmed value on one line. */
  lemma {:induction false} MatchedPiece(r: Rule, piece: string)
    requires WordField(r) && Head(r) <= piece && MatchRule(Trim(piece)) == Some(r)
    ensures Trimmed(r.value) && OneLine(r.value) && |Head(r)| + |r.value| <= |piece|
  {
    TrimKeepsHead(r, piece);
    var rest := Trim(piece)[|r.field| + 1..];
    assert Trim(piece)[..|r.field| + 1] == Head(r)[..|r.field| + 1] == r.field + " ";
    assert Trim(piece) == r.field + " " + rest;
    MatchedValue(r.field, rest, r);
  }

  /** If the first piece of a printed condition matches back to the rule itself,
      the rule's value was clean. */
  lemma {:induction false} ValueOfPiece(r: Rule, tail: string)
    requires WordField(r) && r.value != ""
    requires tail == "" || SEP <= tail
    requires MatchRule(Trim(FirstPiece(PrintRule(r) + tail))) == Some(r)
    ensures Clean(r.value, tail == "")
  {
    var whole := PrintRule(r) + tail;
    var piece := FirstPiece(whole);
    FirstSeparator(r, tail);
    assert Head(r) <= piece by {
      assert Head(r) <= whole;
      assert |piece| >= |Head(r)| && piece <= whole;
    }
    MatchedPiece(r, piece);
    if Find(whole).Some? {
      FindSpec(whole);
      SepChars(whole, Find(whole).value);
    }
  }

  function FirstPiece(s: string): string {
    if Find(s).None? then s else s[..Find(s).value]
  }

  function OtherPieces(s: string): seq<string> {
    if Find(s).None? then [] else Split(s[Find(s).value + |SEP|..])
  }

  /** A condition that starts with a non-blank gives its first piece first. */
  lemma {:induction false} FirstPieceKept(s: string)
    requires s != "" && !IsSpace(s[0])
    ensures FirstPiece(s) != "" && FirstPiece(s)[0] == s[0]
    ensures CleanParts(Split(s)) == [Trim(FirstPiece(s))] + CleanParts(OtherPieces(s))
  {
    FindSpec(s);
    if Find(s).Some? { SepChars(s, Find(s).value); }
    TrimKeepsStart(FirstPiece(s));
    assert Split(s) == [FirstPiece(s)] + OtherPieces(s);
    assert Split(s)[0] == FirstPiece(s) && Split(s)[1..] == OtherPieces(s);
  }

  lemma {:induction false} PiecesSplit(s: string)
    requires s != "" && !IsSpace(s[0])
    ensures Pieces(s) == var first := MatchRule(Trim(FirstPiece(s)));
                         if first.None? then None else Prepend([first.value], MatchAll(CleanParts(OtherPieces(s))))
  {
    FirstPieceKept(s);
    var parts := CleanParts(Split(s));
    assert parts[0] == Trim(FirstPiece(s)) && parts[1..] == CleanParts(OtherPieces(s));
  }

  lemma {:induction false} PrintStarts(r: Rule, tail: string)
    requires WordField(r)
    ensures var whole := PrintRule(r) + tail; whole != "" && whole[0] == r.field[0] && !IsSpace(whole[0])
  {
    WordsAreNotSpace(r.field[0]);
  }

  /** A condition that begins with a printed rule gives that rule first when the
      value is clean, and parsing then goes on after the separator. */
  lemma {:induction false} FirstRuleClean(r: Rule, tail: string)
    requires WordField(r) && r.value != "" && Clean(r.value, tail == "")
    requires tail == "" || SEP <= tail
    ensures Pieces(PrintRule(r) + tail) == if tail == "" then Some([r]) else Prepend([r], Pieces(tail[|SEP|..]))
  {
    var whole, m := PrintRule(r) + tail, |PrintRule(r)|;
    FirstSeparator(r, tail);
    assert whole[..m] == PrintRule(r);
    PrintMatches(r);
    PrintStarts(r, tail);
    if tail == "" {
      assert whole == PrintRule(r);
      LastPiece(whole, r);
    } else {
      assert whole[m + |SEP|..] == tail[|SEP|..];
      NextPiece(whole, m, r);
    }
  }

  lemma {:induction false} LastPiece(s: string, r: Rule)
    requires s != "" && !IsSpace(s[0]) && Find(s) == None && MatchRule(Trim(s)) == Some(r)
    ensures Pieces(s) == Some([r])
  {
    PiecesSplit(s);
    assert OtherPieces(s) == [] && [r] + [] == [r];
  }

  lemma {:induction false} NextPiece(s: string, i: nat, r: Rule)
    requires s != "" && !IsSpace(s[0]) && Find(s) == Some(i) && MatchRule(Trim(s[..i])) == Some(r)
    ensures Pieces(s) == Prepend([r], Pieces(s[i + |SEP|..]))
  {
    PiecesSplit(s);
  }

  lemma {:induction false} PrintMatches(r: Rule)
    requires WordField(r) && r.value != "" && Trimmed(r.value) && OneLine(r.value)
    ensures MatchRule(Trim(PrintRule(r))) == Some(r)
  {
    PrintIsTrimmed(r);
    MatchPrinted(r);
  }

  lemma {:induction false} PrintIsTrimmed(r: Rule)
    requires WordField(r) && r.value != "" && Trimmed(r.value)
    ensures Trim(PrintRule(r)) == PrintRule(r)
  {
    var s := PrintRule(r);
    assert s[0] == r.field[0] && s[|s| - 1] == r.value[|r.value| - 1];
    WordsAreNotSpace(s[0]);
    TrimOfTrimmed(s);
  }

  /** It gives that rule first only then. */
  lemma {:induction false} FirstRuleOnlyClean(r: Rule, tail: string)
    requires WordField(r) && r.value != ""
    requires tail == "" || SEP <= tail
    requires var p := Pieces(PrintRule(r) + tail); p.Some? && p.value != [] && p.value[0] == r
    ensures Clean(r.value, tail == "")
  {
    var whole := PrintRule(r) + tail;
    PrintStarts(r, tail);
    PiecesSplit(whole);
    ValueOfPiece(r, tail);
  }

  lemma {:induction false} KeptAreKept(rules: seq<Rule>)
    ensures forall i :: 0 <= i < |Kept(rules)| ==> Trim(Kept(rules)[i].value) != ""
  {
    if rules != [] { KeptAreKept(rules[1..]); }
  }

  /** The parser only ever returns rules whose field is a word. */
  lemma {:induction false} ParsedAreWords(parts: seq<string>)
    ensures MatchAll(parts).Some? ==>
      forall i :: 0 <= i < |MatchAll(parts).value| ==> WordField(MatchAll(parts).value[i])
  {
    if parts != [] {
      ParsedAreWords(parts[1..]);
      MatchedWord(parts[0]);
    }
  }

  lemma {:induction false} MatchedWord(part: string)
    ensures MatchRule(part).Some? ==> WordField(MatchRule(part).value)
  {
    WordLengthSpec(part);
    if WordLength(part) > 0 {
      Alternatives(part[..WordLength(part)], TrimLeft(part[WordLength(part)..]));
    }
  }

  lemma {:induction false} WordLengthSpec(s: string)
    ensures forall i :: 0 <= i < WordLength(s) ==> IsWord(s[i])
  {
    if s != "" && IsWord(s[0]) { WordLengthSpec(s[1..]); }
  }

  lemma {:induction false} AllCleanSplits(r: Rule, others: seq<Rule>)
    requires others != []
    ensures AllClean([r] + others) <==> Clean(r.value, false) && AllClean(others)
  {
    var rules := [r] + others;
    if AllClean(rules) {
      assert Clean(rules[0].value, 0 == |rules| - 1);
      forall i | 0 <= i < |others| ensures Clean(others[i].value, i == |others| - 1) {
        assert Clean(rules[i + 1].value, i + 1 == |rules| - 1);
      }
    }
    if Clean(r.value, false) && AllClean(others) {
      forall i | 0 <= i < |rules| ensures Clean(rules[i].value, i == |rules| - 1) {
        if i > 0 { assert Clean(others[i - 1].value, i - 1 == |others| - 1); }
      }
    }
  }

  lemma {:induction false} JoinRoundTrip(rules: seq<Rule>)
    requires rules != []
    requires forall i :: 0 <= i < |rules| ==> WordField(rules[i]) && Trim(rules[i].value) != ""
    ensures Pieces(Join(rules)) == Some(rules) <==> AllClean(rules)
  {
    var r, others := rules[0], rules[1..];
    var tail := if others == [] then "" else SEP + Join(others);
    assert rules == [r] + others;
    assert Join(rules) == PrintRule(r) + tail;
    BlankIsEmpty(r.value);
    if others != [] {
      assert tail[|SEP|..] == Join(others);
      JoinRoundTrip(others);
      AllCleanSplits(r, others);
      PrependCancels(r, Pieces(Join(others)), others);
    }
    if Clean(r.value, others == []) {
      FirstRuleClean(r, tail);
    } else if Pieces(Join(rules)) == Some(rules) {
      FirstRuleOnlyClean(r, tail);
    }
  }

  lemma {:induction false} BlankIsEmpty(v: string)
    ensures Trim(v) != "" ==> v != ""
  {
  }

  lemma {:induction false} PrependCancels(r: Rule, p: Option<seq<Rule>>, others: seq<Rule>)
    ensures Prepend([r], p) == Some([r] + others) <==> p == Some(others)
  {
    if p.Some? && [r] + p.value == [r] + others {
      assert p.value == ([r] + p.value)[1..];
      assert others == ([r] + others)[1..];
    }
  }

  predicate AllWords(rules: seq<Rule>) { forall i :: 0 <= i < |rules| ==> WordField(rules[i]) }

  lemma {:induction false} ParseIsPieces(s: string)
    requires s != "" && !IsSpace(s[0])
    ensures Parse(s) == Pieces(s)
  {
    TrimKeepsStart(s);
    FirstPieceKept(s);
  }

  lemma {:induction false} JoinStarts(rules: seq<Rule>)
    requires rules != [] && WordField(rules[0])
    ensures Join(rules) != "" && !IsSpace(Join(rules)[0])
  {
    var tail := Join(rules)[|PrintRule(rules[0])|..];
    assert Join(rules) == PrintRule(rules[0]) + tail;
    PrintStarts(rules[0], tail);
  }

  /** The round trip, exactly, for every list of rules: parsing what the builder
      prints gives back the rules with non-blank values, in order, if and only if
      each of those has a word for a field and a clean value.  An all-blank list
      parses to undefined. */
  lemma {:induction false} RoundTripIff(rules: seq<Rule>)
    ensures Kept(rules) == [] ==> Parse(Print(rules)) == None
    ensures Kept(rules) != [] ==>
      (Parse(Print(rules)) == Some(Kept(rules)) <==> AllWords(Kept(rules)) && AllClean(Kept(rules)))
  {
    var kept := Kept(rules);
    KeptAreKept(rules);
    if kept != [] {
      if AllWords(kept) {
        JoinRoundTrip(kept);
        JoinStarts(kept);
        ParseIsPieces(Join(kept));
      } else {
        ParsedAreWords(CleanParts(Split(Join(kept))));
      }
    }
  }

  /** In particular every non-empty value without blanks other than the word AND
      survives, whatever its neighbours. */
  lemma {:induction false} SimpleValuesAreClean(v: string, isLast: bool)
    requires v != "" && v != "AND" && forall i :: 0 <= i < |v| ==> !IsSpace(v[i])
    ensures Clean(v, isLast)
  {
    var framed := Frame(v, isLast);
    FindSpec(framed);
    assert forall i :: 1 <= i <= |v| ==> framed[i] == v[i - 1];
    if Find(framed).Some? {
      SepChars(framed, Find(framed).value);
    }
  }
}
