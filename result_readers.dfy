/**
 * The readers of the upstream result files, `read_q1_results` and `read_q2_filters`
 * (codes/Q3/src/main.rs; codes/Q3/src/error_main.rs holds identical copies, so this one
 * model serves both). Each is a function of the file's content: reading the file is
 * left out, and the float parser `str::parse::<f64>` is a parameter that accepts some
 * strings and rejects others.
 *
 * Each reader is a loop over the lines that updates its state line by line; the
 * reference functions below say what that state is after any prefix of the lines.
 */
module ResultReaders {
  import opened Wrappers
  import opened Text

  // ---------------------------------------------------------------------------
  // read_q1_results

  /** f_B, the message bandwidth: fixed, never read from the file. */
  const Bandwidth: real := 4000.0

  datatype Q1Params = Q1Params(fd: real, fs: real, fb: real)

  /** A line about the carrier offset f_d (in Chinese or by symbol). */
  predicate MentionsOffset(line: string)
  {
    Contains(line, "频率偏差") || Contains(line, "f_d")
  }

  /** A line about the sampling rate f_s (in Chinese or by symbol). */
  predicate MentionsRate(line: string)
  {
    Contains(line, "采样频率") || Contains(line, "f_s")
  }

  /** The number a Q1 line carries: the first whitespace-separated token after its first
      `=`, or the text "0" when that field is blank, if the parser accepts it. */
  function Q1Value(line: string, parse: string -> Option<real>): Option<real>
  {
    match SecondField(line)
    case None => None
    case Some(field) =>
      var token := FirstToken(Trim(field));
      parse(if token.Some? then token.value else "0")
  }

  /** The f_d the lines set: the value of the last line about f_d whose number parses. */
  function OffsetIn(ls: seq<string>, parse: string -> Option<real>): Option<real>
  {
    if ls == [] then None
    else
      var line := ls[|ls| - 1];
      if MentionsOffset(line) && Q1Value(line, parse).Some? then Q1Value(line, parse)
      else OffsetIn(ls[..|ls| - 1], parse)
  }

  /** The f_s the lines set: the value of the last line about f_s, and not about f_d,
      whose number parses. */
  function RateIn(ls: seq<string>, parse: string -> Option<real>): Option<real>
  {
    if ls == [] then None
    else
      var line := ls[|ls| - 1];
      if !MentionsOffset(line) && MentionsRate(line) && Q1Value(line, parse).Some? then Q1Value(line, parse)
      else RateIn(ls[..|ls| - 1], parse)
  }

  /** `read_q1_results` on the content of the Q1 results file. */
  method ReadQ1Results(content: string, parse: string -> Option<real>) returns (r: Result<Q1Params>)
    ensures OffsetIn(Lines(content), parse).None? ==> r == Err("Could not find f_d in Q1 results")
    ensures OffsetIn(Lines(content), parse).Some? && RateIn(Lines(content), parse).None?
            ==> r == Err("Could not find f_s in Q1 results")
    ensures OffsetIn(Lines(content), parse).Some? && RateIn(Lines(content), parse).Some?
            ==> r == Ok(Q1Params(OffsetIn(Lines(content), parse).value,
                                 RateIn(Lines(content), parse).value, Bandwidth))
  {
    var ls := Lines(content);
    var fd: Option<real> := None;
    var fs: Option<real> := None;
    for i := 0 to |ls|
      invariant fd == OffsetIn(ls[..i], parse)
      invariant fs == RateIn(ls[..i], parse)
    {
      var line := ls[i];
      PrefixStep(ls, i);
      if Contains(line, "频率偏差") || Contains(line, "f_d") {
        var value := Q1Value(line, parse);
        if value.Some? {
          fd := value;
        }
      } else if Contains(line, "采样频率") || Contains(line, "f_s") {
        var value := Q1Value(line, parse);
        if value.Some? {
          fs := value;
        }
      }
    }
    assert ls[..|ls|] == ls;
    if fd.None? {
      return Err("Could not find f_d in Q1 results");
    }
    if fs.None? {
      return Err("Could not find f_s in Q1 results");
    }
    var fb := 4000.0;
    return Ok(Q1Params(fd.value, fs.value, fb));
  }

  /** The first `i + 1` lines are the first `i` lines and then line `i`. */
  lemma PrefixStep(ls: seq<string>, i: nat)
    requires i < |ls|
    ensures ls[..i + 1][..i] == ls[..i] && ls[..i + 1][i] == ls[i]
    ensures ls[..i + 1] == ls[..i] + [ls[i]]
  {
  }

  /** A line about both f_d and f_s sets f_d only. */
  lemma OffsetTakesPriority(ls: seq<string>, line: string, parse: string -> Option<real>)
    requires MentionsOffset(line) && MentionsRate(line) && Q1Value(line, parse).Some?
    ensures OffsetIn(ls + [line], parse) == Q1Value(line, parse)
    ensures RateIn(ls + [line], parse) == RateIn(ls, parse)
  {
    var all := ls + [line];
    assert all[..|all| - 1] == ls && all[|all| - 1] == line;
  }

  /** Later lines win: after more lines, f_d is the one they set, if they set one. */
  lemma {:induction false} LaterLinesWin(ls1: seq<string>, ls2: seq<string>, parse: string -> Option<real>)
    ensures OffsetIn(ls1 + ls2, parse)
         == if OffsetIn(ls2, parse).Some? then OffsetIn(ls2, parse) else OffsetIn(ls1, parse)
    ensures RateIn(ls1 + ls2, parse)
         == if RateIn(ls2, parse).Some? then RateIn(ls2, parse) else RateIn(ls1, parse)
  {
    if ls2 == [] {
      assert ls1 + ls2 == ls1;
    } else {
      var init := ls2[..|ls2| - 1];
      LaterLinesWin(ls1, init, parse);
      assert (ls1 + ls2)[..|ls1 + ls2| - 1] == ls1 + init;
      assert (ls1 + ls2)[|ls1 + ls2| - 1] == ls2[|ls2| - 1];
    }
  }

  /** A blank field after `=` reads as the text "0". */
  lemma BlankFieldReadsZero(line: string, field: string, parse: string -> Option<real>)
    requires SecondField(line) == Some(field) && AllWhitespace(field)
    ensures Q1Value(line, parse) == parse("0")
    ensures parse("0") == Some(0.0) ==> Q1Value(line, parse) == Some(0.0)
  {
    TrimShape(field);
  }

  /** A field's value is its first token: trailing units and comments are ignored. */
  lemma FirstTokenIsValue(line: string, field: string, token: string, rest: string,
                          parse: string -> Option<real>)
    requires SecondField(line) == Some(field)
    requires Trim(field) == token + rest
    requires token != [] && (forall i :: 0 <= i < |token| ==> !IsWhitespace(token[i]))
    requires rest == [] || IsWhitespace(rest[0])
    ensures Q1Value(line, parse) == parse(token)
  {
    var t := Trim(field);
    TrimShape(field);
    TokenPrefix(t, token, rest);
  }

  /** The first token of a string that starts with a word is that word. */
  lemma TokenPrefix(s: string, token: string, rest: string)
    requires s == token + rest
    requires token != [] && (forall i :: 0 <= i < |token| ==> !IsWhitespace(token[i]))
    requires rest == [] || IsWhitespace(rest[0])
    ensures FirstToken(s) == Some(token)
  {
    assert TrimStart(s) == s;
    WordEndOf(token, rest);
    assert s[..|token|] == token;
  }

  lemma {:induction false} WordEndOf(token: string, rest: string)
    requires forall i :: 0 <= i < |token| ==> !IsWhitespace(token[i])
    requires rest == [] || IsWhitespace(rest[0])
    ensures WordEnd(token + rest) == |token|
  {
    if token != [] {
      assert (token + rest)[1..] == token[1..] + rest;
      WordEndOf(token[1..], rest);
    } else {
      assert token + rest == rest;
    }
  }

  // ---------------------------------------------------------------------------
  // read_q2_filters

  /** The filter whose coefficients the lines below a header belong to. */
  datatype Section = NoSection | HighPass | LowPass

  /** `b[k] = …` lines hold numerator coefficients, `a[k] = …` lines denominator ones. */
  datatype Role = Numerator | Denominator

  datatype Coefficients = Coefficients(hpB: seq<real>, hpA: seq<real>, lpB: seq<real>, lpA: seq<real>)

  /** The section a (trimmed) header line opens; the high-pass header is tested first. */
  function HeaderOf(line: string): Option<Section>
  {
    if Contains(line, "High-pass Filter") then Some(HighPass)
    else if Contains(line, "Low-pass Filter") then Some(LowPass)
    else None
  }

  /** The role of a (trimmed) coefficient line, by its prefix. */
  function RoleOf(line: string): Option<Role>
  {
    if "b[" <= line then Some(Numerator)
    else if "a[" <= line then Some(Denominator)
    else None
  }

  /** The coefficient of a (trimmed) line: its whole trimmed field after the first `=`. */
  function Coefficient(line: string, parse: string -> Option<real>): Option<real>
  {
    match SecondField(line)
    case None => None
    case Some(field) => parse(Trim(field))
  }

  /** The section in force after the trimmed line `t`, when `current` was in force
      before it: a header line opens its section, any other line leaves it. */
  function NextSection(current: Section, t: string): Section
  {
    if t != [] && HeaderOf(t).Some? then HeaderOf(t).value else current
  }

  /** The section in force after the lines: that of the last header, if any. */
  function SectionAfter(ls: seq<string>): Section
  {
    if ls == [] then NoSection
    else NextSection(SectionAfter(ls[..|ls| - 1]), Trim(ls[|ls| - 1]))
  }

  /** Whether the trimmed line `t`, read while section `current` is in force,
      contributes coefficient `v` of `role` to section `sec`. */
  function Contribution(current: Section, t: string, sec: Section, role: Role,
                        parse: string -> Option<real>): seq<real>
  {
    var v := Coefficient(t, parse);
    if t != [] && HeaderOf(t).None? && RoleOf(t) == Some(role) && current == sec && v.Some?
    then [v.value]
    else []
  }

  /** The coefficients of `role` collected for section `sec`, in file order. */
  function CollectedIn(ls: seq<string>, sec: Section, role: Role, parse: string -> Option<real>): seq<real>
  {
    if ls == [] then []
    else
      var before := ls[..|ls| - 1];
      CollectedIn(before, sec, role, parse) + Contribution(SectionAfter(before), Trim(ls[|ls| - 1]), sec, role, parse)
  }

  function CoefficientsIn(ls: seq<string>, parse: string -> Option<real>): Coefficients
  {
    Coefficients(CollectedIn(ls, HighPass, Numerator, parse), CollectedIn(ls, HighPass, Denominator, parse),
                 CollectedIn(ls, LowPass, Numerator, parse), CollectedIn(ls, LowPass, Denominator, parse))
  }

  predicate Complete(c: Coefficients)
  {
    c.hpB != [] && c.hpA != [] && c.lpB != [] && c.lpA != []
  }

  /** `read_q2_filters` on the content of the Q2 coefficient file. */
  method ReadQ2Filters(content: string, parse: string -> Option<real>) returns (r: Result<Coefficients>)
    ensures r.Ok? <==> Complete(CoefficientsIn(Lines(content), parse))
    ensures r.Ok? ==> r.value == CoefficientsIn(Lines(content), parse)
    ensures r.Err? ==> r.error == "Failed to parse filter coefficients"
  {
    var ls := Lines(content);
    var hpB: seq<real> := [];
    var hpA: seq<real> := [];
    var lpB: seq<real> := [];
    var lpA: seq<real> := [];
    var section := NoSection;
    for i := 0 to |ls|
      invariant section == SectionAfter(ls[..i])
      invariant Coefficients(hpB, hpA, lpB, lpA) == CoefficientsIn(ls[..i], parse)
    {
      PrefixStep(ls, i);
      CoefficientsStep(ls[..i], ls[i], parse);
      section, hpB, hpA, lpB, lpA := ReadQ2Line(ls[i], parse, section, hpB, hpA, lpB, lpA);
    }
    assert ls[..|ls|] == ls;
    if hpB == [] || hpA == [] || lpB == [] || lpA == [] {
      return Err("Failed to parse filter coefficients");
    }
    return Ok(Coefficients(hpB, hpA, lpB, lpA));
  }

  /** The loop body of `read_q2_filters`: one line updates the section in force or
      appends one coefficient to one list. The header tests (`contains`, high-pass first)
      are those of `HeaderOf`, the coefficient tests (`starts_with`, `b[` first) those of
      `RoleOf`. */
  method ReadQ2Line(raw: string, parse: string -> Option<real>, section: Section,
                    hpB: seq<real>, hpA: seq<real>, lpB: seq<real>, lpA: seq<real>)
    returns (section': Section, hpB': seq<real>, hpA': seq<real>, lpB': seq<real>, lpA': seq<real>)
    ensures section' == NextSection(section, Trim(raw))
    ensures hpB' == hpB + Contribution(section, Trim(raw), HighPass, Numerator, parse)
    ensures hpA' == hpA + Contribution(section, Trim(raw), HighPass, Denominator, parse)
    ensures lpB' == lpB + Contribution(section, Trim(raw), LowPass, Numerator, parse)
    ensures lpA' == lpA + Contribution(section, Trim(raw), LowPass, Denominator, parse)
  {
    section', hpB', hpA', lpB', lpA' := section, hpB, hpA, lpB, lpA;
    var line := Trim(raw);
    if line == [] {
      NothingFromLine(section, line, parse);
      return;
    }
    var header := HeaderOf(line);
    var role := RoleOf(line);
    if header.Some? {
      section' := header.value;
      NothingFromLine(section, line, parse);
    } else if role == Some(Numerator) {
      hpB', lpB' := AppendCoefficient(line, parse, section, hpB, lpB);
      CoefficientFromLine(section, line, Numerator, parse);
    } else if role == Some(Denominator) {
      hpA', lpA' := AppendCoefficient(line, parse, section, hpA, lpA);
      CoefficientFromLine(section, line, Denominator, parse);
    } else {
      NothingFromLine(section, line, parse);
    }
  }

  /** A blank line, a header or a line of neither role adds no coefficient to any list. */
  lemma NothingFromLine(current: Section, t: string, parse: string -> Option<real>)
    requires t == [] || HeaderOf(t).Some? || RoleOf(t).None?
    ensures Contribution(current, t, HighPass, Numerator, parse) == []
    ensures Contribution(current, t, HighPass, Denominator, parse) == []
    ensures Contribution(current, t, LowPass, Numerator, parse) == []
    ensures Contribution(current, t, LowPass, Denominator, parse) == []
  {
  }

  /** A coefficient line of role `role` adds its coefficient, if it parses, to the list of
      that role in the section in force, and nothing to any other list. */
  lemma CoefficientFromLine(current: Section, t: string, role: Role, parse: string -> Option<real>)
    requires t != [] && HeaderOf(t).None? && RoleOf(t) == Some(role)
    ensures var v := Coefficient(t, parse);
            Contribution(current, t, HighPass, Numerator, parse)
            == if role == Numerator && current == HighPass && v.Some? then [v.value] else []
    ensures var v := Coefficient(t, parse);
            Contribution(current, t, HighPass, Denominator, parse)
            == if role == Denominator && current == HighPass && v.Some? then [v.value] else []
    ensures var v := Coefficient(t, parse);
            Contribution(current, t, LowPass, Numerator, parse)
            == if role == Numerator && current == LowPass && v.Some? then [v.value] else []
    ensures var v := Coefficient(t, parse);
            Contribution(current, t, LowPass, Denominator, parse)
            == if role == Denominator && current == LowPass && v.Some? then [v.value] else []
  {
  }

  /** A `b[k] = …` or `a[k] = …` line: the coefficient after `=`, when it parses, goes to
      the list of the section in force, and to no list before the first header. */
  method AppendCoefficient(line: string, parse: string -> Option<real>, section: Section,
                           hp: seq<real>, lp: seq<real>)
    returns (hp': seq<real>, lp': seq<real>)
    ensures var v := Coefficient(line, parse);
            hp' == hp + (if section == HighPass && v.Some? then [v.value] else [])
    ensures var v := Coefficient(line, parse);
            lp' == lp + (if section == LowPass && v.Some? then [v.value] else [])
  {
    hp', lp' := hp, lp;
    var field := SecondField(line);
    if field.Some? {
      var value := parse(Trim(field.value));
      if value.Some? {
        match section
        case HighPass => hp' := hp + [value.value];
        case LowPass => lp' := lp + [value.value];
        case NoSection =>
      }
    }
  }

  /** One more line: the section it leaves in force and what it adds to each list. */
  lemma CoefficientsStep(before: seq<string>, raw: string, parse: string -> Option<real>)
    ensures SectionAfter(before + [raw]) == NextSection(SectionAfter(before), Trim(raw))
    ensures CoefficientsIn(before + [raw], parse)
         == var current, t := SectionAfter(before), Trim(raw);
            Coefficients(CollectedIn(before, HighPass, Numerator, parse) + Contribution(current, t, HighPass, Numerator, parse),
                         CollectedIn(before, HighPass, Denominator, parse) + Contribution(current, t, HighPass, Denominator, parse),
                         CollectedIn(before, LowPass, Numerator, parse) + Contribution(current, t, LowPass, Numerator, parse),
                         CollectedIn(before, LowPass, Denominator, parse) + Contribution(current, t, LowPass, Denominator, parse))
  {
    var all := before + [raw];
    assert all[..|all| - 1] == before && all[|all| - 1] == raw;
  }

  /** A header line, or a blank one, contributes no coefficient. */
  lemma HeaderOrBlankYieldsNothing(ls: seq<string>, line: string, sec: Section, role: Role,
                                   parse: string -> Option<real>)
    requires Trim(line) == [] || HeaderOf(Trim(line)).Some?
    ensures CollectedIn(ls + [line], sec, role, parse) == CollectedIn(ls, sec, role, parse)
    ensures SectionAfter(ls + [line])
         == if Trim(line) == [] then SectionAfter(ls) else HeaderOf(Trim(line)).value
  {
    assert (ls + [line])[..|ls|] == ls;
  }

  /** One more line keeps what the lines before it collected at the front. */
  lemma CollectedOneMore(ls: seq<string>, sec: Section, role: Role, parse: string -> Option<real>)
    requires ls != []
    ensures CollectedIn(ls[..|ls| - 1], sec, role, parse) <= CollectedIn(ls, sec, role, parse)
  {
    var before := CollectedIn(ls[..|ls| - 1], sec, role, parse);
    var extra := Contribution(SectionAfter(ls[..|ls| - 1]), Trim(ls[|ls| - 1]), sec, role, parse);
    assert (before + extra)[..|before|] == before;
  }

  lemma PrefixTransitive(a: seq<real>, b: seq<real>, c: seq<real>)
    requires a <= b && b <= c
    ensures a <= c
  {
    assert c[..|b|][..|a|] == c[..|a|];
  }

  /** Coefficients only ever append: what the first lines collected stays at the front,
      so a repeated header continues its list instead of restarting it. */
  lemma {:induction false} CollectedGrows(ls1: seq<string>, ls2: seq<string>, sec: Section, role: Role,
                                          parse: string -> Option<real>)
    ensures CollectedIn(ls1, sec, role, parse) <= CollectedIn(ls1 + ls2, sec, role, parse)
  {
    if ls2 == [] {
      assert ls1 + ls2 == ls1;
    } else {
      var init := ls2[..|ls2| - 1];
      CollectedGrows(ls1, init, sec, role, parse);
      var all := ls1 + ls2;
      assert all[..|all| - 1] == ls1 + init;
      CollectedOneMore(all, sec, role, parse);
      PrefixTransitive(CollectedIn(ls1, sec, role, parse), CollectedIn(ls1 + init, sec, role, parse),
                       CollectedIn(all, sec, role, parse));
    }
  }

  /** Without a header, no coefficient is kept and the reader fails. */
  lemma {:induction false} NoHeaderNoCoefficients(ls: seq<string>, sec: Section, role: Role,
                                                  parse: string -> Option<real>)
    requires forall k :: 0 <= k < |ls| ==> HeaderOf(Trim(ls[k])).None?
    ensures SectionAfter(ls) == NoSection
    ensures sec != NoSection ==> CollectedIn(ls, sec, role, parse) == []
    ensures !Complete(CoefficientsIn(ls, parse))
  {
    if ls != [] {
      var init := ls[..|ls| - 1];
      NoHeaderNoCoefficients(init, sec, role, parse);
      NoHeaderNoCoefficients(init, HighPass, Numerator, parse);
    }
  }
}
