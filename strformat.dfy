/**
 * Python's `str.format(*args, **kwargs)` restricted to what templates in a
 * story use: literal text, the escapes `{{` and `}}`, and replacement
 * fields `{}` (automatic numbering), `{n}` (manual numbering) and `{name}`
 * (keyword). Conversions (`!r`), format specifications (`:>10`), attribute
 * and index access (`.x`, `[0]`) are reported as `Unsupported`.
 */
module StrFormat {
  import opened Common
  import Decimal

  /** Why `str.format` raises: a lone brace (ValueError), an unterminated
    * field (ValueError), switching between automatic and manual numbering
    * (ValueError), a missing positional argument (IndexError), a missing
    * keyword argument (KeyError), or a field this model does not cover. */
  datatype FormatError =
    | SingleBrace
    | UnclosedField
    | MixedNumbering
    | MissingIndex(index: nat)
    | MissingKey(key: string)
    | Unsupported(field: string)

  /** Python's numbering state: no numbered field yet, automatic numbering
    * with the index of the next `{}`, or manual numbering. */
  datatype Numbering = Unset | Auto(next: nat) | Manual

  predicate IsBrace(c: char) {
    c == '{' || c == '}'
  }

  /** Characters that start a conversion, a format specification, an
    * attribute or an index, or that cannot appear in a field name. */
  predicate Special(c: char) {
    c == '!' || c == ':' || c == '.' || c == '[' || c == '{'
  }

  /** `v` in front of a successful result; a failure passes through. */
  function Prepend(v: string, r: Result<string, FormatError>): (p: Result<string, FormatError>)
    ensures p.Success? <==> r.Success?
    ensures p.Success? ==> p.value == v + r.value
  {
    match r
    case Success(s) => Success(v + s)
    case Failure(e) => Failure(e)
  }

  /** The value of one replacement field and the numbering state after it. */
  function Field(f: string, pos: seq<string>, named: map<string, string>, mode: Numbering)
    : Result<(string, Numbering), FormatError>
  {
    if exists i :: 0 <= i < |f| && Special(f[i]) then Failure(Unsupported(f))
    else if f == "" then
      var index := match mode case Auto(n) => n case _ => 0;
      if mode.Manual? then Failure(MixedNumbering)
      else if index < |pos| then Success((pos[index], Auto(index + 1)))
      else Failure(MissingIndex(index))
    else if Decimal.AllDigits(f) then
      var index := Decimal.Parse(f);
      if mode.Auto? then Failure(MixedNumbering)
      else if index < |pos| then Success((pos[index], Manual))
      else Failure(MissingIndex(index))
    else if f in named then Success((named[f], mode))
    else Failure(MissingKey(f))
  }

  /** `t.format(*pos, **named)`, the template read left to right. */
  function FormatFrom(t: string, pos: seq<string>, named: map<string, string>, mode: Numbering)
    : Result<string, FormatError>
    decreases |t|
  {
    if t == [] then Success("")
    else if t[0] == '{' then
      if 1 < |t| && t[1] == '{' then Prepend("{", FormatFrom(t[2..], pos, named, mode))
      else
        match IndexOf(t[1..], '}')
        case None => Failure(UnclosedField)
        case Some(j) =>
          match Field(t[1..j + 1], pos, named, mode)
          case Failure(e) => Failure(e)
          case Success((v, mode')) => Prepend(v, FormatFrom(t[j + 2..], pos, named, mode'))
    else if t[0] == '}' then
      if 1 < |t| && t[1] == '}' then Prepend("}", FormatFrom(t[2..], pos, named, mode))
      else Failure(SingleBrace)
    else Prepend([t[0]], FormatFrom(t[1..], pos, named, mode))
  }

  function Format(t: string, pos: seq<string>, named: map<string, string>): Result<string, FormatError>
  {
    FormatFrom(t, pos, named, Unset)
  }

  // ---------------------------------------------------------------------
  // Properties
  // ---------------------------------------------------------------------

  /** A literal text written as a template: every brace doubled. */
  function Escape(s: string): (t: string)
    ensures |t| >= |s|
  {
    if s == [] then "" else (if IsBrace(s[0]) then [s[0], s[0]] else [s[0]]) + Escape(s[1..])
  }

  lemma {:induction false} PrependTwice(a: string, b: string, r: Result<string, FormatError>)
    ensures Prepend(a, Prepend(b, r)) == Prepend(a + b, r)
  {
    match r
    case Success(v) => assert a + (b + v) == (a + b) + v;
    case Failure(_) =>
  }

  /** A doubled brace stands for one brace. */
  lemma {:induction false} FormatDoubled(c: char, tail: string, pos: seq<string>, named: map<string, string>, mode: Numbering)
    requires IsBrace(c)
    ensures FormatFrom([c, c] + tail, pos, named, mode) == Prepend([c], FormatFrom(tail, pos, named, mode))
  {
    assert ([c, c] + tail)[2..] == tail;
  }

  /** Any other character stands for itself. */
  lemma {:induction false} FormatLiteral(c: char, tail: string, pos: seq<string>, named: map<string, string>, mode: Numbering)
    requires !IsBrace(c)
    ensures FormatFrom([c] + tail, pos, named, mode) == Prepend([c], FormatFrom(tail, pos, named, mode))
  {
    assert ([c] + tail)[1..] == tail;
  }

  lemma {:induction false} PrependEmpty(r: Result<string, FormatError>)
    ensures Prepend("", r) == r
  {
    match r
    case Success(v) => assert "" + v == v;
    case Failure(_) =>
  }

  /** One more character in front of escaped text: its escape formats back
    * to it. */
  lemma {:induction false} FormatEscapedStep(c: char, s: string, rest: string, pos: seq<string>, named: map<string, string>, mode: Numbering)
    requires FormatFrom(Escape(s) + rest, pos, named, mode) == Prepend(s, FormatFrom(rest, pos, named, mode))
    ensures FormatFrom(Escape([c] + s) + rest, pos, named, mode) == Prepend([c] + s, FormatFrom(rest, pos, named, mode))
  {
    var tail := Escape(s) + rest;
    assert ([c] + s)[1..] == s;
    if IsBrace(c) {
      assert Escape([c] + s) + rest == [c, c] + tail;
      FormatDoubled(c, tail, pos, named, mode);
    } else {
      assert Escape([c] + s) + rest == [c] + tail;
      FormatLiteral(c, tail, pos, named, mode);
    }
    PrependTwice([c], s, FormatFrom(rest, pos, named, mode));
  }

  /** Escaped text formats to itself whatever the arguments, and leaves the
    * numbering state alone. */
  lemma {:induction false} FormatEscaped(s: string, rest: string, pos: seq<string>, named: map<string, string>, mode: Numbering)
    ensures FormatFrom(Escape(s) + rest, pos, named, mode) == Prepend(s, FormatFrom(rest, pos, named, mode))
  {
    if s == [] {
      assert Escape(s) + rest == rest;
      PrependEmpty(FormatFrom(rest, pos, named, mode));
    } else {
      FormatEscaped(s[1..], rest, pos, named, mode);
      FormatEscapedStep(s[0], s[1..], rest, pos, named, mode);
      assert [s[0]] + s[1..] == s;
    }
  }

  /** Doubling the braces is the inverse of formatting: `Escape(s).format(...)
    * == s`. */
  lemma {:induction false} EscapeRoundTrip(s: string, pos: seq<string>, named: map<string, string>)
    ensures Format(Escape(s), pos, named) == Success(s)
  {
    FormatEscaped(s, "", pos, named, Unset);
    assert Escape(s) + "" == Escape(s);
    assert s + "" == s;
  }

  lemma {:induction false} EscapeBraceFree(s: string)
    requires forall i :: 0 <= i < |s| ==> !IsBrace(s[i])
    ensures Escape(s) == s
  {
    if s != [] {
      EscapeBraceFree(s[1..]);
    }
  }

  /** A template without braces is returned unchanged: no argument is
    * consulted and nothing can fail. */
  lemma {:induction false} NoBracesIsIdentity(s: string, pos: seq<string>, named: map<string, string>)
    requires forall i :: 0 <= i < |s| ==> !IsBrace(s[i])
    ensures Format(s, pos, named) == Success(s)
  {
    EscapeBraceFree(s);
    EscapeRoundTrip(s, pos, named);
  }

  /** A replacement field: `{`, a field name without `}`, `}`. */
  lemma {:induction false} FieldStep(f: string, rest: string, pos: seq<string>, named: map<string, string>, mode: Numbering)
    requires forall i :: 0 <= i < |f| ==> f[i] != '}'
    requires f == [] || f[0] != '{'
    ensures FormatFrom("{" + f + "}" + rest, pos, named, mode)
      == match Field(f, pos, named, mode)
         case Failure(e) => Failure(e)
         case Success((v, mode')) => Prepend(v, FormatFrom(rest, pos, named, mode'))
  {
    var t := "{" + f + "}" + rest;
    assert t[1..] == f + "}" + rest;
    IndexFromAt(t[1..], '}', 0, |f|);
    assert t[1..|f| + 1] == f;
    assert t[|f| + 2..] == rest;
  }

  /** `{}` takes the next positional argument: literal text, then `{}`, gives
    * the text, the argument at the automatic index, and the rest formatted
    * with the index moved on. Without that argument, IndexError. */
  lemma {:induction false} AutoFieldTakesNextArgument(lit: string, rest: string, pos: seq<string>, named: map<string, string>, n: nat)
    ensures var mode := if n == 0 then Unset else Auto(n);
      FormatFrom(Escape(lit) + "{}" + rest, pos, named, mode)
        == if n < |pos| then Prepend(lit + pos[n], FormatFrom(rest, pos, named, Auto(n + 1)))
           else Failure(MissingIndex(n))
  {
    var mode := if n == 0 then Unset else Auto(n);
    var t := "{" + "" + "}" + rest;
    assert Escape(lit) + "{}" + rest == Escape(lit) + t;
    FormatEscaped(lit, t, pos, named, mode);
    FieldStep("", rest, pos, named, mode);
    if n < |pos| {
      PrependTwice(lit, pos[n], FormatFrom(rest, pos, named, Auto(n + 1)));
    }
  }

  /** A field naming a keyword argument that was given takes its value,
    * whatever literal text comes before it, and leaves the numbering as it
    * was. The name is any text that is not a number and holds no brace,
    * `!`, `:`, `.` or `[`. */
  lemma {:induction false} KeywordFieldTakesItsArgument(lit: string, key: string, rest: string, pos: seq<string>,
                                                        named: map<string, string>, mode: Numbering)
    requires key != "" && !Decimal.AllDigits(key) && key in named
    requires forall i :: 0 <= i < |key| ==> key[i] != '}' && !Special(key[i])
    ensures FormatFrom(Escape(lit) + "{" + key + "}" + rest, pos, named, mode)
      == Prepend(lit + named[key], FormatFrom(rest, pos, named, mode))
  {
    assert Escape(lit) + "{" + key + "}" + rest == Escape(lit) + ("{" + key + "}" + rest);
    FieldAfterText(lit, key, rest, pos, named, mode, named[key], mode);
  }

  /** A numeral names positional argument `n` and switches to manual
    * numbering. */
  lemma {:induction false} NumeralField(n: nat, pos: seq<string>, named: map<string, string>, mode: Numbering)
    requires n < |pos| && !mode.Auto?
    ensures var d := Decimal.Show(n);
      && (forall i :: 0 <= i < |d| ==> d[i] != '}')
      && (d == [] || d[0] != '{')
      && Field(d, pos, named, mode) == Success((pos[n], Manual))
  {
    var d := Decimal.Show(n);
    Decimal.ParseShow(n);
    forall i | 0 <= i < |d| ensures d[i] != '}' && !Special(d[i]) {
    }
  }

  /** A numeral after automatic numbering is refused, whatever it names. */
  lemma {:induction false} NumeralAfterAuto(n: nat, pos: seq<string>, named: map<string, string>, k: nat)
    ensures var d := Decimal.Show(n);
      && (forall i :: 0 <= i < |d| ==> d[i] != '}')
      && (d == [] || d[0] != '{')
      && Field(d, pos, named, Auto(k)) == Failure(MixedNumbering)
  {
    var d := Decimal.Show(n);
    Decimal.ParseShow(n);
    forall i | 0 <= i < |d| ensures d[i] != '}' && !Special(d[i]) {
    }
  }

  /** Escaped text, then a field that succeeds: the text, the field's
    * value, then the rest formatted in the new numbering state. */
  lemma {:induction false} FieldAfterText(a: string, f: string, u: string, pos: seq<string>, named: map<string, string>,
                                          mode: Numbering, v: string, mode': Numbering)
    requires forall i :: 0 <= i < |f| ==> f[i] != '}'
    requires f == [] || f[0] != '{'
    requires Field(f, pos, named, mode) == Success((v, mode'))
    ensures FormatFrom(Escape(a) + ("{" + f + "}" + u), pos, named, mode) == Prepend(a + v, FormatFrom(u, pos, named, mode'))
    ensures FormatFrom(Escape(a) + (("{" + f + "}") + u), pos, named, mode) == Prepend(a + v, FormatFrom(u, pos, named, mode'))
  {
    FormatEscaped(a, "{" + f + "}" + u, pos, named, mode);
    FieldStep(f, u, pos, named, mode);
    PrependTwice(a, v, FormatFrom(u, pos, named, mode'));
  }

  /** Escaped text, then a field that fails: the field's error. */
  lemma {:induction false} FailingFieldAfterText(a: string, f: string, u: string, pos: seq<string>, named: map<string, string>,
                                                 mode: Numbering, e: FormatError)
    requires forall i :: 0 <= i < |f| ==> f[i] != '}'
    requires f == [] || f[0] != '{'
    requires Field(f, pos, named, mode) == Failure(e)
    ensures FormatFrom(Escape(a) + ("{" + f + "}" + u), pos, named, mode) == Failure(e)
    ensures FormatFrom(Escape(a) + (("{" + f + "}") + u), pos, named, mode) == Failure(e)
  {
    FormatEscaped(a, "{" + f + "}" + u, pos, named, mode);
    FieldStep(f, u, pos, named, mode);
  }

  /** Regroupings of a template around its two fields. */
  lemma {:induction false} FieldsFirst(x1: string, x2: string, x3: string, x4: string, x5: string, x6: string, x7: string)
    ensures x1 + x2 + x3 + x4 + x5 + x6 + x7 == x1 + ((x2 + x3 + x4) + (x5 + (x6 + x7)))
  {
  }

  lemma {:induction false} FieldsLast(x1: string, x2: string, x3: string, x4: string, x5: string, x6: string, x7: string)
    ensures x1 + x2 + x3 + x4 + x5 + x6 + x7 == x1 + (x2 + (x3 + ((x4 + x5 + x6) + x7)))
  {
  }

  /** Once a field `{n}` has switched to manual numbering, a later `{}` is
    * refused, whatever literal text lies before, between and after. */
  lemma {:induction false} ManualThenAutoIsRefused(a: string, b: string, rest: string, n: nat, pos: seq<string>, named: map<string, string>)
    requires n < |pos|
    ensures Format(Escape(a) + "{" + Decimal.Show(n) + "}" + Escape(b) + "{}" + rest, pos, named) == Failure(MixedNumbering)
  {
    var d := Decimal.Show(n);
    FieldsFirst(Escape(a), "{", d, "}", Escape(b), "{}", rest);
    assert "{" + "" + "}" == "{}";
    NumeralField(n, pos, named, Unset);
    FieldAfterText(a, d, Escape(b) + ("{}" + rest), pos, named, Unset, pos[n], Manual);
    FailingFieldAfterText(b, "", rest, pos, named, Manual, MixedNumbering);
  }

  /** Once a field `{}` has started automatic numbering, a later `{n}` is
    * refused, whatever literal text lies before, between and after. */
  lemma {:induction false} AutoThenManualIsRefused(a: string, b: string, rest: string, n: nat, pos: seq<string>, named: map<string, string>)
    requires 0 < |pos|
    ensures Format(Escape(a) + "{}" + Escape(b) + "{" + Decimal.Show(n) + "}" + rest, pos, named) == Failure(MixedNumbering)
  {
    var d := Decimal.Show(n);
    FieldsLast(Escape(a), "{}", Escape(b), "{", d, "}", rest);
    assert "{" + "" + "}" == "{}";
    FieldAfterText(a, "", Escape(b) + (("{" + d + "}") + rest), pos, named, Unset, pos[0], Auto(1));
    assert "{}" + (Escape(b) + (("{" + d + "}") + rest)) == ("{" + "" + "}") + (Escape(b) + (("{" + d + "}") + rest));
    NumeralAfterAuto(n, pos, named, 1);
    FailingFieldAfterText(b, d, rest, pos, named, Auto(1), MixedNumbering);
  }

  /** A field naming a keyword argument that was not given raises KeyError,
    * whatever literal text comes before it. The name is any text that is
    * not a number and holds no brace, `!`, `:`, `.` or `[`. */
  lemma {:induction false} MissingKeyword(a: string, key: string, rest: string, pos: seq<string>, named: map<string, string>)
    requires key != "" && !Decimal.AllDigits(key) && key !in named
    requires forall i :: 0 <= i < |key| ==> key[i] != '}' && !Special(key[i])
    ensures Format(Escape(a) + "{" + key + "}" + rest, pos, named) == Failure(MissingKey(key))
  {
    assert Escape(a) + "{" + key + "}" + rest == Escape(a) + ("{" + key + "}" + rest);
    FailingFieldAfterText(a, key, rest, pos, named, Unset, MissingKey(key));
  }
}
