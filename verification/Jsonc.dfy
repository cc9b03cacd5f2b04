/** The two comment strippers of the client installers: the Python one scans with an
    index, the PowerShell one with a for loop; each has a pass that removes comments and
    a pass that removes trailing commas. The passes are specified on character lists. */
module Jsonc {
  import opened Wrappers

  // ---------- Character lists ----------

  datatype Text = End | More(c: char, rest: Text)

  /** The characters of s from position i on. */
  function Of(s: string, i: nat): Text
    decreases |s| - i
  {
    if i < |s| then More(s[i], Of(s, i + 1)) else End
  }

  function Str(t: Text): string {
    match t
    case End => ""
    case More(c, rest) => [c] + Str(rest)
  }

  lemma {:induction false} OfStr(t: Text, s: string, i: nat)
    requires i <= |s| && s[i..] == Str(t)
    ensures Of(s, i) == t
    decreases t
  {
    if t.More? {
      assert s[i..][0] == t.c && s[i + 1..] == s[i..][1..];
      OfStr(t.rest, s, i + 1);
    }
  }

  function Size(t: Text): nat {
    if t.End? then 0 else 1 + Size(t.rest)
  }

  function Append(t: Text, u: Text): Text {
    if t.End? then u else More(t.c, Append(t.rest, u))
  }

  // ---------- Scanner state ----------

  /** Outside a string, inside one, or inside one just after a backslash. */
  datatype Mode = Out | In | Esc

  function After(m: Mode, c: char): Mode {
    match m
    case Out => if c == '"' then In else Out
    case In => if c == '\\' then Esc else if c == '"' then Out else In
    case Esc => In
  }

  /** The scanner's flags for a mode. */
  predicate Flags(m: Mode, inString: bool, escaped: bool) {
    inString == (m != Out) && escaped == (m == Esc)
  }

  predicate Begins(t: Text, a: char, b: char)
    ensures Begins(t, a, b) ==> t.More? && t.rest.More? && Size(t) == 2 + Size(t.rest.rest)
  {
    t.More? && t.c == a && t.rest.More? && t.rest.c == b
  }

  predicate LineOpens(t: Text) { Begins(t, '/', '/') }

  predicate BlockOpens(t: Text) { Begins(t, '/', '*') }

  predicate Opens(t: Text) { LineOpens(t) || BlockOpens(t) }

  /** What is left from the end of a line comment on: the line feed, if there is one. */
  function SkipLine(t: Text): (r: Text)
    ensures Size(r) <= Size(t)
    ensures r.More? ==> r.c == '\n'
  {
    if t.End? || t.c == '\n' then t else SkipLine(t.rest)
  }

  /** What is left after the end of a block comment; an unterminated one takes everything. */
  function SkipBlock(t: Text): (r: Text)
    ensures Size(r) <= Size(t)
  {
    if t.End? || t.rest.End? then End
    else if Begins(t, '*', '/') then t.rest.rest
    else SkipBlock(t.rest)
  }

  // ---------- Pass 1 ----------

  /** The text without its comments; a line comment keeps its line feed. */
  function Uncomment(t: Text, m: Mode): Text
    decreases Size(t)
  {
    if t.End? then End
    else if m == Out && LineOpens(t) then Uncomment(SkipLine(t.rest.rest), Out)
    else if m == Out && BlockOpens(t) then Uncomment(SkipBlock(t.rest.rest), Out)
    else More(t.c, Uncomment(t.rest, After(m, t.c)))
  }

  // ---------- Pass 2 ----------

  function SkipSpace(t: Text, isSpace: char -> bool): (r: Text)
    ensures r.More? ==> !isSpace(r.c)
  {
    if t.End? || !isSpace(t.c) then t else SkipSpace(t.rest, isSpace)
  }

  predicate Closes(t: Text) {
    t.More? && (t.c == '}' || t.c == ']')
  }

  /** A comma whose next character that is not white space closes an object or array. */
  predicate TrailingComma(t: Text, isSpace: char -> bool) {
    t.More? && t.c == ',' && Closes(SkipSpace(t.rest, isSpace))
  }

  function Uncomma(t: Text, m: Mode, isSpace: char -> bool): Text {
    if t.End? then End
    else if m == Out && TrailingComma(t, isSpace) then Uncomma(t.rest, Out, isSpace)
    else More(t.c, Uncomma(t.rest, After(m, t.c), isSpace))
  }

  function Strip(t: Text, isSpace: char -> bool): Text {
    Uncomma(Uncomment(t, Out), Out, isSpace)
  }

  /** Moving one character from what is still to come to what is already out. */
  lemma Emit(out: string, whole: Text, goal: string)
    requires whole.More? && out + Str(whole) == goal
    ensures (out + [whole.c]) + Str(whole.rest) == goal
  {
  }

  // ---------- The Python scanner ----------

  method SkipLineIndex(text: string, start: nat) returns (i: nat)
    requires start <= |text|
    ensures start <= i <= |text| && Of(text, i) == SkipLine(Of(text, start))
  {
    i := start;
    while i < |text| && text[i] != '\n'
      invariant start <= i <= |text|
      invariant SkipLine(Of(text, i)) == SkipLine(Of(text, start))
    {
      i := i + 1;
    }
  }

  /** The inner loop of the block comment branch, and the two steps past the close. */
  method SkipBlockIndex(text: string, start: nat) returns (i: nat)
    requires start <= |text|
    ensures start < i && Of(text, i) == SkipBlock(Of(text, start))
  {
    i := start;
    while i + 1 < |text| && !(text[i] == '*' && text[i + 1] == '/')
      invariant start <= i <= |text|
      invariant SkipBlock(Of(text, i)) == SkipBlock(Of(text, start))
    {
      i := i + 1;
    }
    i := i + 2;
  }

  method PyUncomment(text: string) returns (out: string)
    ensures out == Str(Uncomment(Of(text, 0), Out))
  {
    out := "";
    var i := 0;
    var inString, escaped := false, false;
    ghost var m := Out;
    ghost var goal := Str(Uncomment(Of(text, 0), Out));
    while i < |text|
      invariant Flags(m, inString, escaped)
      invariant out + Str(Uncomment(Of(text, i), m)) == goal
      decreases |text| - i
    {
      var c := text[i];
      ghost var t := Of(text, i);
      assert t.rest == Of(text, i + 1);
      if inString {
        Emit(out, Uncomment(t, m), goal);
        out := out + [c];
        m := After(m, c);
        if escaped {
          escaped := false;
        } else if c == '\\' {
          escaped := true;
        } else if c == '"' {
          inString := false;
        }
        i := i + 1;
      } else if c == '"' {
        inString := true;
        Emit(out, Uncomment(t, m), goal);
        m := In;
        out := out + [c];
        i := i + 1;
      } else if c == '/' && i + 1 < |text| && text[i + 1] == '/' {
        i := SkipLineIndex(text, i + 2);
      } else if c == '/' && i + 1 < |text| && text[i + 1] == '*' {
        i := SkipBlockIndex(text, i + 2);
      } else {
        Emit(out, Uncomment(t, m), goal);
        out := out + [c];
        i := i + 1;
      }
    }
  }

  method SkipSpaceIndex(text: string, start: nat, isSpace: char -> bool) returns (j: nat)
    requires start <= |text|
    ensures start <= j <= |text| && Of(text, j) == SkipSpace(Of(text, start), isSpace)
  {
    j := start;
    while j < |text| && isSpace(text[j])
      invariant start <= j <= |text|
      invariant SkipSpace(Of(text, j), isSpace) == SkipSpace(Of(text, start), isSpace)
    {
      j := j + 1;
    }
  }

  method PyUncomma(text: string, isSpace: char -> bool) returns (out: string)
    ensures out == Str(Uncomma(Of(text, 0), Out, isSpace))
  {
    out := "";
    var i := 0;
    var inString, escaped := false, false;
    ghost var m := Out;
    ghost var goal := Str(Uncomma(Of(text, 0), Out, isSpace));
    while i < |text|
      invariant Flags(m, inString, escaped)
      invariant out + Str(Uncomma(Of(text, i), m, isSpace)) == goal
      decreases |text| - i
    {
      var c := text[i];
      ghost var t := Of(text, i);
      assert t.rest == Of(text, i + 1);
      if inString {
        Emit(out, Uncomma(t, m, isSpace), goal);
        out := out + [c];
        m := After(m, c);
        if escaped {
          escaped := false;
        } else if c == '\\' {
          escaped := true;
        } else if c == '"' {
          inString := false;
        }
        i := i + 1;
      } else if c == '"' {
        inString := true;
        Emit(out, Uncomma(t, m, isSpace), goal);
        m := In;
        out := out + [c];
        i := i + 1;
      } else if c == ',' {
        var j := SkipSpaceIndex(text, i + 1, isSpace);
        if j < |text| && (text[j] == '}' || text[j] == ']') {
          i := i + 1;
        } else {
          Emit(out, Uncomma(t, m, isSpace), goal);
          out := out + [c];
          i := i + 1;
        }
      } else {
        Emit(out, Uncomma(t, m, isSpace), goal);
        out := out + [c];
        i := i + 1;
      }
    }
  }

  /** strip_jsonc. */
  method PyStrip(text: string, isSpace: char -> bool) returns (out: string)
    ensures out == Str(Strip(Of(text, 0), isSpace))
  {
    var clean := PyUncomment(text);
    OfStr(Uncomment(Of(text, 0), Out), clean, 0);
    out := PyUncomma(clean, isSpace);
  }

  // ---------- The PowerShell scanner ----------

  /** Pass 1 in PowerShell: a line comment is replaced by a line feed of its own, and the
      comment's line feed goes with it. */
  function PsUncomment(t: Text, m: Mode): Text
    decreases Size(t)
  {
    if t.End? then End
    else if m == Out && LineOpens(t) then
      var r := SkipLine(t.rest.rest);
      More('\n', PsUncomment(if r.End? then End else r.rest, Out))
    else if m == Out && BlockOpens(t) then PsUncomment(SkipBlock(t.rest.rest), Out)
    else More(t.c, PsUncomment(t.rest, After(m, t.c)))
  }

  method PsUncommentLoop(text: string) returns (clean: string)
    ensures clean == Str(PsUncomment(Of(text, 0), Out))
  {
    clean := "";
    var inString, escaped := false, false;
    var i := 0;
    ghost var m := Out;
    ghost var goal := Str(PsUncomment(Of(text, 0), Out));
    while i < |text|
      invariant Flags(m, inString, escaped)
      invariant clean + Str(PsUncomment(Of(text, i), m)) == goal
      decreases |text| - i
    {
      var c := text[i];
      ghost var t := Of(text, i);
      assert t.rest == Of(text, i + 1);
      var next := if i + 1 < |text| then text[i + 1] else '\0';
      if inString {
        Emit(clean, PsUncomment(t, m), goal);
        clean := clean + [c];
        m := After(m, c);
        if escaped {
          escaped := false;
        } else if c == '\\' {
          escaped := true;
        } else if c == '"' {
          inString := false;
        }
      } else if c == '"' {
        Emit(clean, PsUncomment(t, m), goal);
        inString := true;
        m := In;
        clean := clean + [c];
      } else if c == '/' && next == '/' {
        i := SkipLineIndex(text, i + 2);
        Emit(clean, PsUncomment(t, Out), goal);
        clean := clean + "\n";
      } else if c == '/' && next == '*' {
        i := SkipBlockIndex(text, i + 2);
        i := i - 1;
      } else {
        Emit(clean, PsUncomment(t, m), goal);
        clean := clean + [c];
      }
      i := i + 1;
    }
  }

  method PsUncommaLoop(text: string, isSpace: char -> bool) returns (result: string)
    ensures result == Str(Uncomma(Of(text, 0), Out, isSpace))
  {
    result := "";
    var inString, escaped := false, false;
    ghost var m := Out;
    ghost var goal := Str(Uncomma(Of(text, 0), Out, isSpace));
    for i := 0 to |text|
      invariant Flags(m, inString, escaped)
      invariant result + Str(Uncomma(Of(text, i), m, isSpace)) == goal
    {
      var c := text[i];
      ghost var t := Of(text, i);
      assert t.rest == Of(text, i + 1);
      if inString {
        Emit(result, Uncomma(t, m, isSpace), goal);
        result := result + [c];
        m := After(m, c);
        if escaped {
          escaped := false;
          continue;
        }
        if c == '\\' {
          escaped := true;
          continue;
        }
        if c == '"' {
          inString := false;
        }
        continue;
      }
      if c == '"' {
        inString := true;
        Emit(result, Uncomma(t, m, isSpace), goal);
        m := In;
        result := result + [c];
        continue;
      }
      if c == ',' {
        var j := SkipSpaceIndex(text, i + 1, isSpace);
        if j < |text| && (text[j] == '}' || text[j] == ']') {
          continue;
        }
      }
      Emit(result, Uncomma(t, m, isSpace), goal);
      result := result + [c];
    }
  }

  predicate AllBlank(text: string, isSpace: char -> bool) {
    forall i :: 0 <= i < |text| ==> isSpace(text[i])
  }

  /** ConvertFrom-OpenCodeJsonC up to the JSON parser, which a blank text never reaches. */
  method PsStrip(text: string, isSpace: char -> bool) returns (result: Option<string>)
    ensures result == if forall c :: c in text ==> isSpace(c) then None
                      else Some(Str(Uncomma(PsUncomment(Of(text, 0), Out), Out, isSpace)))
  {
    assert AllBlank(text, isSpace) ==> forall c :: c in text ==> isSpace(c);
    if AllBlank(text, isSpace) {
      return None;
    }
    var withoutComments := PsUncommentLoop(text);
    OfStr(PsUncomment(Of(text, 0), Out), withoutComments, 0);
    var stripped := PsUncommaLoop(withoutComments, isSpace);
    result := Some(stripped);
  }

  // ---------- The two agree ----------

  /** The text ends inside a line comment. */
  predicate EndsInLineComment(t: Text, m: Mode)
    decreases Size(t)
  {
    if t.End? then false
    else if m == Out && LineOpens(t) then
      SkipLine(t.rest.rest).End? || EndsInLineComment(SkipLine(t.rest.rest), Out)
    else if m == Out && BlockOpens(t) then EndsInLineComment(SkipBlock(t.rest.rest), Out)
    else EndsInLineComment(t.rest, After(m, t.c))
  }

  const NEWLINE := More('\n', End)

  function NewlineIf(b: bool): Text {
    if b then NEWLINE else End
  }

  lemma {:induction false} AppendEnd(t: Text)
    ensures Append(t, End) == t
  {
    if t.More? {
      AppendEnd(t.rest);
    }
  }

  lemma {:induction false} UncommentsAgree(t: Text, m: Mode)
    ensures PsUncomment(t, m) == Append(Uncomment(t, m), NewlineIf(EndsInLineComment(t, m)))
    decreases Size(t)
  {
    if t.End? {
    } else if m == Out && LineOpens(t) {
      var r := SkipLine(t.rest.rest);
      if r.More? {
        UncommentsAgree(r.rest, Out);
        assert After(Out, r.c) == Out;
      }
    } else if m == Out && BlockOpens(t) {
      UncommentsAgree(SkipBlock(t.rest.rest), Out);
    } else {
      UncommentsAgree(t.rest, After(m, t.c));
    }
  }

  lemma {:induction false} SkipSpaceNewline(t: Text, isSpace: char -> bool)
    ensures Closes(SkipSpace(Append(t, NEWLINE), isSpace)) == Closes(SkipSpace(t, isSpace))
  {
    if t.More? {
      SkipSpaceNewline(t.rest, isSpace);
    }
  }

  /** A final line feed passes through the second pass, whatever stands before it. */
  lemma {:induction false} UncommaNewline(t: Text, m: Mode, isSpace: char -> bool)
    ensures Uncomma(Append(t, NEWLINE), m, isSpace) == Append(Uncomma(t, m, isSpace), NEWLINE)
  {
    if t.More? {
      SkipSpaceNewline(t.rest, isSpace);
      UncommaNewline(t.rest, if m == Out && TrailingComma(t, isSpace) then Out else After(m, t.c), isSpace);
    }
  }

  /** The PowerShell output is the Python output, plus one final line feed exactly when
      the text ends inside a line comment; with any notion of white space. */
  lemma StrippersAgree(t: Text, isSpace: char -> bool)
    ensures Uncomma(PsUncomment(t, Out), Out, isSpace)
            == Append(Strip(t, isSpace), NewlineIf(EndsInLineComment(t, Out)))
  {
    UncommentsAgree(t, Out);
    if EndsInLineComment(t, Out) {
      UncommaNewline(Uncomment(t, Out), Out, isSpace);
    } else {
      AppendEnd(Uncomment(t, Out));
      AppendEnd(Strip(t, isSpace));
    }
  }

  // ---------- No comment is left, and none is made ----------

  /** No comment opens outside a string. */
  predicate NoOpener(t: Text, m: Mode) {
    t.More? ==> !(m == Out && Opens(t)) && NoOpener(t.rest, After(m, t.c))
  }

  /** Pass 1 keeps the length only of a text in which no comment opens, and leaves such a
      text alone. */
  lemma {:induction false} UncommentFixed(t: Text, m: Mode)
    ensures Size(Uncomment(t, m)) <= Size(t)
    ensures NoOpener(t, m) ==> Uncomment(t, m) == t
    ensures Size(Uncomment(t, m)) == Size(t) ==> NoOpener(t, m)
    decreases Size(t)
  {
    if t.End? {
    } else if m == Out && LineOpens(t) {
      UncommentFixed(SkipLine(t.rest.rest), Out);
    } else if m == Out && BlockOpens(t) {
      UncommentFixed(SkipBlock(t.rest.rest), Out);
    } else {
      UncommentFixed(t.rest, After(m, t.c));
    }
  }

  /** Removing comments leaves none, in any text: unterminated strings and comments too.
      No slash can meet the remains of a removed comment, because a slash before a comment
      would have been part of a line comment's opening. */
  lemma {:induction false} UncommentLeavesNone(t: Text, m: Mode)
    ensures NoOpener(Uncomment(t, m), m)
    decreases Size(t)
  {
    if t.End? {
    } else if m == Out && LineOpens(t) {
      UncommentLeavesNone(SkipLine(t.rest.rest), Out);
    } else if m == Out && BlockOpens(t) {
      UncommentLeavesNone(SkipBlock(t.rest.rest), Out);
    } else {
      UncommentLeavesNone(t.rest, After(m, t.c));
      if m == Out && t.c == '/' && t.rest.More? {
        assert t.rest.c != '/' && t.rest.c != '*';
        assert !Opens(t.rest);
        assert Uncomment(t.rest, Out).c == t.rest.c;
      }
    }
  }

  /** Removing comments twice is removing them once. */
  lemma UncommentIdempotent(t: Text)
    ensures Uncomment(Uncomment(t, Out), Out) == Uncomment(t, Out)
  {
    UncommentLeavesNone(t, Out);
    UncommentFixed(Uncomment(t, Out), Out);
  }

  /** White space is none of the characters that structure a JSON text or open a comment. */
  ghost predicate ProperSpace(isSpace: char -> bool) {
    forall c :: c in ['"', ',', '/', '*', '{', '}', '[', ']', ':'] ==> !isSpace(c)
  }

  /** The second pass's output starts as the text does, or, where a comma was dropped,
      with the white space or bracket that came next. */
  lemma UncommaHead(t: Text, m: Mode, isSpace: char -> bool)
    requires t.More? && ProperSpace(isSpace)
    ensures Uncomma(t, m, isSpace).More?
    ensures var c := Uncomma(t, m, isSpace).c;
            if m == Out && TrailingComma(t, isSpace) then isSpace(c) || c == '}' || c == ']' else c == t.c
  {
    assert !isSpace(',');
  }

  /** Removing trailing commas never makes a comment. */
  lemma {:induction false} UncommaMakesNone(t: Text, m: Mode, isSpace: char -> bool)
    requires NoOpener(t, m) && ProperSpace(isSpace)
    ensures NoOpener(Uncomma(t, m, isSpace), m)
  {
    if t.More? {
      var next := if m == Out && TrailingComma(t, isSpace) then Out else After(m, t.c);
      UncommaMakesNone(t.rest, next, isSpace);
      if m == Out && t.c == '/' && t.rest.More? {
        UncommaHead(t.rest, Out, isSpace);
        assert !isSpace('/') && !isSpace('*');
      }
    }
  }

  /** The stripped text holds no comment. */
  lemma StripLeavesNone(t: Text, isSpace: char -> bool)
    requires ProperSpace(isSpace)
    ensures NoOpener(Strip(t, isSpace), Out)
  {
    UncommentLeavesNone(t, Out);
    UncommaMakesNone(Uncomment(t, Out), Out, isSpace);
  }

  // ---------- Each with its own white space ----------

  /** Outside strings, no comma is a trailing one under one notion of white space only. */
  predicate SpacesAgree(t: Text, m: Mode, p: char -> bool, q: char -> bool) {
    t.More? ==>
      && (m == Out ==> TrailingComma(t, p) == TrailingComma(t, q))
      && SpacesAgree(t.rest, After(m, t.c), p, q)
  }

  lemma {:induction false} UncommaAgreesExactly(t: Text, m: Mode, p: char -> bool, q: char -> bool)
    requires ProperSpace(p) && ProperSpace(q)
    ensures Uncomma(t, m, p) == Uncomma(t, m, q) <==> SpacesAgree(t, m, p, q)
  {
    if t.More? {
      if m == Out && TrailingComma(t, p) != TrailingComma(t, q) {
        UncommaHead(t, m, p);
        UncommaHead(t, m, q);
        assert !p(',') && !q(',');
      } else {
        UncommaAgreesExactly(t.rest, if m == Out && TrailingComma(t, p) then Out else After(m, t.c), p, q);
      }
    }
  }

  lemma {:induction false} AppendCancels(a: Text, b: Text, end: Text)
    requires Append(a, end) == Append(b, end)
    ensures a == b
  {
    AppendSize(a, end);
    AppendSize(b, end);
    if a.More? && b.More? {
      AppendCancels(a.rest, b.rest, end);
    }
  }

  lemma {:induction false} AppendSize(a: Text, b: Text)
    ensures Size(Append(a, b)) == Size(a) + Size(b)
  {
    if a.More? {
      AppendSize(a.rest, b);
    }
  }

  /** With white space of its own for each script, the outputs agree, up to the final line
      feed, exactly when no comma of the uncommented text trails under one of them only. */
  lemma StrippersAgreeExactly(t: Text, py: char -> bool, ps: char -> bool)
    requires ProperSpace(py) && ProperSpace(ps)
    ensures Uncomma(PsUncomment(t, Out), Out, ps) == Append(Strip(t, py), NewlineIf(EndsInLineComment(t, Out)))
            <==> SpacesAgree(Uncomment(t, Out), Out, py, ps)
  {
    var clean := Uncomment(t, Out);
    StrippersAgree(t, ps);
    UncommaAgreesExactly(clean, Out, py, ps);
    if Uncomma(PsUncomment(t, Out), Out, ps) == Append(Strip(t, py), NewlineIf(EndsInLineComment(t, Out))) {
      AppendCancels(Strip(t, py), Strip(t, ps), NewlineIf(EndsInLineComment(t, Out)));
    }
  }

  /** Char.IsWhiteSpace of .NET. */
  predicate NetSpace(c: char) {
    || 0x09 <= c as int <= 0x0D
    || c as int in {0x20, 0x85, 0xA0, 0x1680, 0x2028, 0x2029, 0x202F, 0x205F, 0x3000}
    || 0x2000 <= c as int <= 0x200A
  }

  /** str.isspace of Python, which adds the four information separators. */
  predicate PythonSpace(c: char) {
    NetSpace(c) || 0x1C <= c as int <= 0x1F
  }

  predicate NoSeparators(t: Text) {
    t.More? ==> !(0x1C <= t.c as int <= 0x1F) && NoSeparators(t.rest)
  }

  lemma {:induction false} SameSpace(t: Text)
    requires NoSeparators(t)
    ensures SkipSpace(t, PythonSpace) == SkipSpace(t, NetSpace)
  {
    if t.More? {
      SameSpace(t.rest);
    }
  }

  /** The two scripts' own white space agrees on any text without those separators. */
  lemma {:induction false} ScriptsAgree(t: Text, m: Mode)
    requires NoSeparators(t)
    ensures SpacesAgree(t, m, PythonSpace, NetSpace)
  {
    if t.More? {
      SameSpace(t.rest);
      ScriptsAgree(t.rest, After(m, t.c));
    }
  }

  /** A comma, a file separator and a closing brace: only Python drops the comma. */
  lemma ScriptsCanDiffer()
    ensures var t := More(',', More('\U{1C}', More('}', End)));
            Strip(t, PythonSpace) == t.rest && Strip(t, NetSpace) == t
  {
    var t := More(',', More('\U{1C}', More('}', End)));
    assert SkipSpace(t.rest, PythonSpace) == t.rest.rest;
    assert SkipSpace(t.rest, NetSpace) == t.rest;
  }

  lemma StripBetween(c: char, isSpace: char -> bool)
    requires !isSpace(',') && !isSpace('}')
    ensures var inner := More(c, More('}', End));
            Strip(More(',', inner), isSpace)
            == if isSpace(c) || c in "}]," then inner else More(',', inner)
  {
    var last := More('}', End);
    var inner := More(c, last);
    var t := More(',', inner);
    assert forall m :: Uncomment(last, m) == last && Uncomma(last, m, isSpace) == last;
    assert Uncomment(inner, Out) == inner;
    assert Uncomment(t, Out) == t;
    assert SkipSpace(inner, isSpace) == if isSpace(c) then last else inner;
    assert Uncomma(inner, Out, isSpace) == if c == ',' then last else inner;
  }

  /** A comma and a closing brace with one character between them: the scripts differ on
      it exactly when that is one of the four separators. */
  lemma SeparatorsDiffer(c: char)
    ensures var t := More(',', More(c, More('}', End)));
            Strip(t, PythonSpace) != Strip(t, NetSpace) <==> c in "\U{1C}\U{1D}\U{1E}\U{1F}"
  {
    StripBetween(c, PythonSpace);
    StripBetween(c, NetSpace);
  }

  // ---------- When stripping twice changes nothing more ----------

  /** A comma outside strings whose next character that is not white space is itself a
      trailing comma. */
  predicate DoubleComma(t: Text, m: Mode, isSpace: char -> bool) {
    t.More? &&
    (|| (m == Out && t.c == ',' && TrailingComma(SkipSpace(t.rest, isSpace), isSpace))
     || DoubleComma(t.rest, After(m, t.c), isSpace))
  }

  /** No trailing comma outside strings. */
  predicate NoTrailing(t: Text, m: Mode, isSpace: char -> bool) {
    t.More? ==> !(m == Out && TrailingComma(t, isSpace)) && NoTrailing(t.rest, After(m, t.c), isSpace)
  }

  lemma {:induction false} UncommaFixed(t: Text, m: Mode, isSpace: char -> bool)
    ensures Uncomma(t, m, isSpace) == t <==> NoTrailing(t, m, isSpace)
    ensures Size(Uncomma(t, m, isSpace)) <= Size(t)
  {
    if t.More? {
      UncommaFixed(t.rest, if m == Out && TrailingComma(t, isSpace) then Out else After(m, t.c), isSpace);
    }
  }

  /** The stripper is the identity exactly on texts without comments and trailing commas. */
  lemma StripIdentityExactly(t: Text, isSpace: char -> bool)
    ensures Strip(t, isSpace) == t <==> NoOpener(t, Out) && NoTrailing(t, Out, isSpace)
  {
    UncommentFixed(t, Out);
    UncommaFixed(Uncomment(t, Out), Out, isSpace);
  }

  /** What follows the white space at the head of the second pass's output: what followed
      it in the text, unless that was a trailing comma, which leaves a closing bracket. */
  lemma {:induction false} UncommaSkipsSpace(t: Text, isSpace: char -> bool)
    requires ProperSpace(isSpace)
    ensures Closes(SkipSpace(Uncomma(t, Out, isSpace), isSpace))
            <==> Closes(SkipSpace(t, isSpace)) || TrailingComma(SkipSpace(t, isSpace), isSpace)
  {
    if t.More? {
      assert !isSpace('"') && !isSpace(',') && !isSpace('}') && !isSpace(']');
      if isSpace(t.c) {
        UncommaSkipsSpace(t.rest, isSpace);
      } else if TrailingComma(t, isSpace) {
        UncommaSkipsSpace(t.rest, isSpace);
      }
    }
  }

  lemma {:induction false} UncommaTwice(t: Text, m: Mode, isSpace: char -> bool)
    requires ProperSpace(isSpace)
    ensures NoTrailing(Uncomma(t, m, isSpace), m, isSpace) <==> !DoubleComma(t, m, isSpace)
  {
    if t.More? {
      assert !isSpace(',') && !isSpace('}') && !isSpace(']');
      if m == Out && TrailingComma(t, isSpace) {
        UncommaTwice(t.rest, Out, isSpace);
        assert After(Out, ',') == Out;
      } else {
        UncommaTwice(t.rest, After(m, t.c), isSpace);
        if m == Out && t.c == ',' {
          UncommaSkipsSpace(t.rest, isSpace);
        }
      }
    }
  }

  /** Stripping is idempotent exactly on texts where, comments aside, no comma stands
      before a trailing comma. */
  lemma StripIdempotentExactly(t: Text, isSpace: char -> bool)
    requires ProperSpace(isSpace)
    ensures Strip(Strip(t, isSpace), isSpace) == Strip(t, isSpace) <==> !DoubleComma(Uncomment(t, Out), Out, isSpace)
  {
    var clean := Uncomment(t, Out);
    var s := Strip(t, isSpace);
    StripLeavesNone(t, isSpace);
    UncommentFixed(s, Out);
    UncommaTwice(clean, Out, isSpace);
    UncommaFixed(s, Out, isSpace);
  }

  /** The smallest text that shows it. */
  lemma StripNotIdempotent(isSpace: char -> bool)
    requires ProperSpace(isSpace)
    ensures Strip(More(',', More(',', More('}', End))), isSpace) == More(',', More('}', End))
    ensures Strip(More(',', More('}', End)), isSpace) == More('}', End)
  {
    assert !isSpace(',') && !isSpace('}');
  }
}
