/** What stripping means for a document: a text written as tokens, white space and
    comments loses its comments and its trailing commas and nothing else. */
module JsoncTokens {
  import opened Jsonc

  // ---------- Documents ----------

  datatype Piece =
    | Quoted(body: Text)
    | Mark(mark: char)
    | Atom(word: Text)
    | Space(blank: Text)
    | Line(remark: Text)
    | Block(note: Text)

  datatype Doc = Done | Then(piece: Piece, more: Doc)

  function Written(p: Piece, after: Text): Text {
    match p
    case Quoted(body) => More('"', Append(body, More('"', after)))
    case Mark(c) => More(c, after)
    case Atom(word) => Append(word, after)
    case Space(blank) => Append(blank, after)
    case Line(remark) => More('/', More('/', Append(remark, after)))
    case Block(note) => More('/', More('*', Append(note, More('*', More('/', after)))))
  }

  function Render(d: Doc): Text {
    match d
    case Done => End
    case Then(p, more) => Written(p, Render(more))
  }

  predicate IsMark(c: char) {
    c == '{' || c == '}' || c == '[' || c == ']' || c == ':' || c == ','
  }

  /** A character of a number or of a literal name. */
  predicate Plain(c: char, isSpace: char -> bool) {
    c != '"' && c != '/' && !IsMark(c) && !isSpace(c)
  }

  predicate AllPlain(t: Text, isSpace: char -> bool) {
    t.More? ==> Plain(t.c, isSpace) && AllPlain(t.rest, isSpace)
  }

  predicate AllSpace(t: Text, isSpace: char -> bool) {
    t.More? ==> isSpace(t.c) && AllSpace(t.rest, isSpace)
  }

  /** The inside of a string literal: read from inside a string, it stays inside, and it
      does not end in an open escape. */
  predicate Inside(t: Text, m: Mode) {
    if t.End? then m == In else After(m, t.c) != Out && Inside(t.rest, After(m, t.c))
  }

  predicate NoLineFeed(t: Text) {
    t.More? ==> t.c != '\n' && NoLineFeed(t.rest)
  }

  predicate NoBlockEnd(t: Text) {
    t.More? ==> !Begins(t, '*', '/') && NoBlockEnd(t.rest)
  }

  predicate WellFormedPiece(p: Piece, isSpace: char -> bool) {
    match p
    case Quoted(body) => Inside(body, In)
    case Mark(c) => IsMark(c)
    case Atom(word) => word.More? && AllPlain(word, isSpace)
    case Space(blank) => AllSpace(blank, isSpace)
    case Line(remark) => NoLineFeed(remark)
    case Block(note) => NoBlockEnd(note)
  }

  /** A line comment ends at a line feed or with the text. */
  predicate WellFormed(d: Doc, isSpace: char -> bool) {
    d.Then? ==>
      && WellFormedPiece(d.piece, isSpace)
      && (d.piece.Line? ==> Render(d.more).More? ==> Render(d.more).c == '\n')
      && WellFormed(d.more, isSpace)
  }

  predicate IsComment(p: Piece) { p.Line? || p.Block? }

  predicate NoComments(d: Doc) {
    d.Then? ==> !IsComment(d.piece) && NoComments(d.more)
  }

  /** The next piece that is neither white space nor a comment is a closing bracket. */
  predicate ClosesNext(d: Doc) {
    d.Then? &&
    match d.piece
    case Space(_) => ClosesNext(d.more)
    case Line(_) => ClosesNext(d.more)
    case Block(_) => ClosesNext(d.more)
    case Mark(c) => c == '}' || c == ']'
    case _ => false
  }

  predicate Trailing(d: Doc) {
    d.Then? && d.piece == Mark(',') && ClosesNext(d.more)
  }

  function WithoutComments(d: Doc): Doc {
    if d.Done? then Done
    else if IsComment(d.piece) then WithoutComments(d.more)
    else Then(d.piece, WithoutComments(d.more))
  }

  /** The document without its comments and trailing commas. */
  function Kept(d: Doc): Doc {
    if d.Done? then Done
    else if IsComment(d.piece) || Trailing(d) then Kept(d.more)
    else Then(d.piece, Kept(d.more))
  }

  // ---------- Pass 1 on a document ----------

  lemma {:induction false} UncommentInside(body: Text, m: Mode, after: Text)
    requires m != Out && Inside(body, m)
    ensures Uncomment(Append(body, More('"', after)), m) == Append(body, More('"', Uncomment(after, Out)))
  {
    if body.More? {
      UncommentInside(body.rest, After(m, body.c), after);
    }
  }

  predicate Quiet(t: Text) {
    t.More? ==> t.c != '"' && t.c != '/' && Quiet(t.rest)
  }

  lemma {:induction false} UncommentQuiet(word: Text, after: Text)
    requires Quiet(word)
    ensures Uncomment(Append(word, after), Out) == Append(word, Uncomment(after, Out))
  {
    if word.More? {
      UncommentQuiet(word.rest, after);
    }
  }

  lemma {:induction false} SkipRemark(remark: Text, after: Text)
    requires NoLineFeed(remark) && (after.More? ==> after.c == '\n')
    ensures SkipLine(Append(remark, after)) == after
  {
    if remark.More? {
      SkipRemark(remark.rest, after);
    }
  }

  lemma {:induction false} SkipNote(note: Text, after: Text)
    requires NoBlockEnd(note)
    ensures SkipBlock(Append(note, More('*', More('/', after)))) == after
  {
    if note.More? {
      SkipNote(note.rest, after);
    }
  }

  lemma {:induction false} QuietWords(t: Text, isSpace: char -> bool)
    requires ProperSpace(isSpace)
    ensures AllPlain(t, isSpace) || AllSpace(t, isSpace) ==> Quiet(t)
  {
    if t.More? {
      assert !isSpace('"') && !isSpace('/');
      QuietWords(t.rest, isSpace);
    }
  }

  /** Pass 1 erases the comments of a document and nothing else. */
  lemma {:induction false} UncommentRender(d: Doc, isSpace: char -> bool)
    requires WellFormed(d, isSpace) && ProperSpace(isSpace)
    ensures Uncomment(Render(d), Out) == Render(WithoutComments(d))
  {
    if d.Then? {
      var after := Render(d.more);
      UncommentRender(d.more, isSpace);
      match d.piece
      case Quoted(body) => UncommentInside(body, In, after);
      case Mark(c) =>
      case Atom(word) => QuietWords(word, isSpace); UncommentQuiet(word, after);
      case Space(blank) => QuietWords(blank, isSpace); UncommentQuiet(blank, after);
      case Line(remark) => SkipRemark(remark, after);
      case Block(note) => SkipNote(note, after);
    }
  }

  // ---------- Pass 2 on a document ----------

  lemma {:induction false} UncommaInside(body: Text, m: Mode, after: Text, isSpace: char -> bool)
    requires m != Out && Inside(body, m)
    ensures Uncomma(Append(body, More('"', after)), m, isSpace)
            == Append(body, More('"', Uncomma(after, Out, isSpace)))
  {
    if body.More? {
      UncommaInside(body.rest, After(m, body.c), after, isSpace);
    }
  }

  lemma {:induction false} UncommaWords(word: Text, after: Text, isSpace: char -> bool)
    requires AllPlain(word, isSpace) || AllSpace(word, isSpace)
    requires ProperSpace(isSpace)
    ensures Uncomma(Append(word, after), Out, isSpace) == Append(word, Uncomma(after, Out, isSpace))
  {
    if word.More? {
      assert !isSpace('"') && !isSpace(',');
      UncommaWords(word.rest, after, isSpace);
    }
  }

  lemma {:induction false} SkipBlank(blank: Text, after: Text, isSpace: char -> bool)
    requires AllSpace(blank, isSpace)
    ensures SkipSpace(Append(blank, after), isSpace) == SkipSpace(after, isSpace)
  {
    if blank.More? {
      SkipBlank(blank.rest, after, isSpace);
    }
  }

  lemma {:induction false} ClosesRendered(d: Doc, isSpace: char -> bool)
    requires WellFormed(d, isSpace) && NoComments(d) && ProperSpace(isSpace)
    ensures Closes(SkipSpace(Render(d), isSpace)) == ClosesNext(d)
  {
    if d.Then? {
      assert !isSpace('"') && !isSpace(':') && !isSpace(',');
      assert !isSpace('{') && !isSpace('}') && !isSpace('[') && !isSpace(']');
      match d.piece
      case Space(blank) =>
        SkipBlank(blank, Render(d.more), isSpace);
        ClosesRendered(d.more, isSpace);
      case _ =>
    }
  }

  /** Pass 2 erases the trailing commas of a document without comments and nothing else. */
  lemma {:induction false} UncommaRender(d: Doc, isSpace: char -> bool)
    requires WellFormed(d, isSpace) && NoComments(d) && ProperSpace(isSpace)
    ensures Uncomma(Render(d), Out, isSpace) == Render(Kept(d))
  {
    if d.Then? {
      var after := Render(d.more);
      UncommaRender(d.more, isSpace);
      match d.piece
      case Quoted(body) => UncommaInside(body, In, after, isSpace);
      case Mark(c) => ClosesRendered(d.more, isSpace);
      case Atom(word) => UncommaWords(word, after, isSpace);
      case Space(blank) => UncommaWords(blank, after, isSpace);
    }
  }

  // ---------- Both passes ----------

  lemma {:induction false} WithoutCommentsFacts(d: Doc, isSpace: char -> bool)
    requires WellFormed(d, isSpace)
    ensures WellFormed(WithoutComments(d), isSpace) && NoComments(WithoutComments(d))
    ensures ClosesNext(WithoutComments(d)) == ClosesNext(d)
    ensures Kept(WithoutComments(d)) == Kept(d)
  {
    if d.Then? {
      WithoutCommentsFacts(d.more, isSpace);
    }
  }

  /** Stripping a document erases its comments and its trailing commas; tokens, string
      literals and white space stay as they were, in order. */
  lemma StripRender(d: Doc, isSpace: char -> bool)
    requires WellFormed(d, isSpace) && ProperSpace(isSpace)
    ensures Strip(Render(d), isSpace) == Render(Kept(d))
  {
    UncommentRender(d, isSpace);
    WithoutCommentsFacts(d, isSpace);
    UncommaRender(WithoutComments(d), isSpace);
  }

  // ---------- A reader of strict JSON tokens ----------

  /** The string literal at the head of t, read from mode m up to its closing quote. */
  function Body(t: Text, m: Mode): Text {
    if t.End? || After(m, t.c) == Out then End else More(t.c, Body(t.rest, After(m, t.c)))
  }

  function PastBody(t: Text, m: Mode): (r: Text)
    ensures Size(r) <= Size(t)
  {
    if t.End? then End else if After(m, t.c) == Out then t.rest else PastBody(t.rest, After(m, t.c))
  }

  function Word(t: Text, isSpace: char -> bool): Text {
    if t.More? && Plain(t.c, isSpace) then More(t.c, Word(t.rest, isSpace)) else End
  }

  function PastWord(t: Text, isSpace: char -> bool): (r: Text)
    ensures Size(r) <= Size(t)
  {
    if t.More? && Plain(t.c, isSpace) then PastWord(t.rest, isSpace) else t
  }

  /** The tokens of a text: white space separates, string literals and punctuation marks
      delimit themselves, anything else runs on as far as it can. */
  function Lex(t: Text, isSpace: char -> bool): Doc
    decreases Size(t)
  {
    if t.End? then Done
    else if isSpace(t.c) then Lex(t.rest, isSpace)
    else if t.c == '"' then Then(Quoted(Body(t.rest, In)), Lex(PastBody(t.rest, In), isSpace))
    else if IsMark(t.c) then Then(Mark(t.c), Lex(t.rest, isSpace))
    else if t.c == '/' then Then(Mark('/'), Lex(t.rest, isSpace))
    else Then(Atom(Word(t, isSpace)), Lex(PastWord(t, isSpace), isSpace))
  }

  function Tokens(d: Doc): Doc {
    if d.Done? then Done
    else if IsComment(d.piece) || d.piece.Space? then Tokens(d.more)
    else Then(d.piece, Tokens(d.more))
  }

  function Count(d: Doc): nat {
    if d.Done? then 0 else 1 + Count(d.more)
  }

  /** What stands next, comments and empty white space aside, is an atom. */
  predicate AtomNext(d: Doc) {
    d.Then? && (d.piece.Atom? || ((IsComment(d.piece) || d.piece == Space(End)) && AtomNext(d.more)))
  }

  /** Somewhere two atoms are kept apart by nothing but comments. */
  predicate AtomsMeet(d: Doc) {
    d.Then? && ((d.piece.Atom? && AtomNext(d.more)) || AtomsMeet(d.more))
  }

  lemma {:induction false} BodyInside(body: Text, m: Mode, after: Text)
    requires m != Out && Inside(body, m)
    ensures Body(Append(body, More('"', after)), m) == body
    ensures PastBody(Append(body, More('"', after)), m) == after
  {
    if body.More? {
      BodyInside(body.rest, After(m, body.c), after);
    }
  }

  lemma {:induction false} LexBlank(blank: Text, after: Text, isSpace: char -> bool)
    requires AllSpace(blank, isSpace)
    ensures Lex(Append(blank, after), isSpace) == Lex(after, isSpace)
  {
    if blank.More? {
      LexBlank(blank.rest, after, isSpace);
    }
  }

  lemma {:induction false} WordRuns(word: Text, after: Text, isSpace: char -> bool)
    requires AllPlain(word, isSpace)
    ensures Word(Append(word, after), isSpace) == Append(word, Word(after, isSpace))
    ensures PastWord(Append(word, after), isSpace) == PastWord(after, isSpace)
  {
    if word.More? {
      WordRuns(word.rest, after, isSpace);
    }
  }

  lemma PlainHead(d: Doc, isSpace: char -> bool)
    requires WellFormed(d, isSpace) && NoComments(d) && ProperSpace(isSpace)
    ensures Render(d).More? && Plain(Render(d).c, isSpace) <==> AtomNext(d)
  {
    if d.Then? && d.piece == Space(End) {
      PlainHead(d.more, isSpace);
    }
  }

  /** Reading a text from the middle of an atom gives exactly one token more, the
      rest of the atom, than reading it from the end of the atom. */
  lemma PastWordCount(t: Text, isSpace: char -> bool)
    requires t.More? && Plain(t.c, isSpace)
    ensures Count(Lex(t, isSpace)) == 1 + Count(Lex(PastWord(t, isSpace), isSpace))
  {
  }

  /** Reading back a document without comments gives its tokens when no two of its atoms
      touch, and fewer tokens when some do. */
  lemma {:induction false} LexRender(d: Doc, isSpace: char -> bool)
    requires WellFormed(d, isSpace) && NoComments(d) && ProperSpace(isSpace)
    ensures !AtomsMeet(d) ==> Lex(Render(d), isSpace) == Tokens(d)
    ensures Count(Lex(Render(d), isSpace)) <= Count(Tokens(d))
    ensures AtomsMeet(d) ==> Count(Lex(Render(d), isSpace)) < Count(Tokens(d))
  {
    if d.Then? {
      var after := Render(d.more);
      LexRender(d.more, isSpace);
      match d.piece
      case Quoted(body) =>
        assert !isSpace('"');
        BodyInside(body, In, after);
      case Mark(c) =>
        assert !isSpace('{') && !isSpace('}') && !isSpace('[') && !isSpace(']') && !isSpace(':') && !isSpace(',');
      case Space(blank) => LexBlank(blank, after, isSpace);
      case Atom(word) => LexAtom(word, d.more, isSpace);
    }
  }

  lemma LexAtom(word: Text, more: Doc, isSpace: char -> bool)
    requires word.More? && AllPlain(word, isSpace)
    requires WellFormed(more, isSpace) && NoComments(more) && ProperSpace(isSpace)
    ensures !AtomNext(more) ==> Lex(Append(word, Render(more)), isSpace) == Then(Atom(word), Lex(Render(more), isSpace))
    ensures Count(Lex(Append(word, Render(more)), isSpace)) <= 1 + Count(Lex(Render(more), isSpace))
    ensures AtomNext(more) ==> Count(Lex(Append(word, Render(more)), isSpace)) == Count(Lex(Render(more), isSpace))
  {
    var after := Render(more);
    PlainHead(more, isSpace);
    WordRuns(word, after, isSpace);
    var t := Append(word, after);
    assert t.More? && Plain(t.c, isSpace);
    PastWordCount(t, isSpace);
    if AtomNext(more) {
      PastWordCount(after, isSpace);
    } else {
      AppendEnd(word);
    }
  }

  lemma {:induction false} KeptFacts(d: Doc, isSpace: char -> bool)
    requires WellFormed(d, isSpace)
    ensures WellFormed(Kept(d), isSpace) && NoComments(Kept(d))
    ensures AtomNext(Kept(d)) == AtomNext(d)
    ensures AtomsMeet(Kept(d)) == AtomsMeet(d)
  {
    if d.Then? {
      KeptFacts(d.more, isSpace);
      if Trailing(d) {
        ClosesNotAtom(d.more);
      }
    }
  }

  lemma {:induction false} ClosesNotAtom(d: Doc)
    requires ClosesNext(d)
    ensures !AtomNext(d)
  {
    if d.piece.Space? || IsComment(d.piece) {
      ClosesNotAtom(d.more);
    }
  }

  /** Stripping preserves the tokens, trailing commas aside, exactly when nowhere two
      atoms are kept apart by comments alone: as in 1, a block comment, 2, which become
      the one number 12. */
  lemma TokensKeptExactly(d: Doc, isSpace: char -> bool)
    requires WellFormed(d, isSpace) && ProperSpace(isSpace)
    ensures Lex(Strip(Render(d), isSpace), isSpace) == Tokens(Kept(d)) <==> !AtomsMeet(d)
  {
    StripRender(d, isSpace);
    KeptFacts(d, isSpace);
    LexRender(Kept(d), isSpace);
  }

  // ---------- What is kept, in terms of tokens alone ----------

  /** The tokens with every comma dropped that stands right before a closing bracket. */
  function DropTrailing(tokens: Doc): Doc {
    if tokens.Done? then Done
    else if tokens.piece == Mark(',') && tokens.more.Then? && tokens.more.piece in {Mark('}'), Mark(']')} then
      DropTrailing(tokens.more)
    else Then(tokens.piece, DropTrailing(tokens.more))
  }

  lemma {:induction false} ClosesByToken(d: Doc)
    ensures ClosesNext(d) <==> Tokens(d).Then? && Tokens(d).piece in {Mark('}'), Mark(']')}
  {
    if d.Then? && (d.piece.Space? || IsComment(d.piece)) {
      ClosesByToken(d.more);
    }
  }

  lemma {:induction false} TokensOfKept(d: Doc)
    ensures Tokens(Kept(d)) == DropTrailing(Tokens(d))
  {
    if d.Then? {
      ClosesByToken(d.more);
      TokensOfKept(d.more);
    }
  }

  predicate NoTrailingMarks(d: Doc) {
    d.Then? ==> !Trailing(d) && NoTrailingMarks(d.more)
  }

  /** Strict JSON passes through untouched, white space and all. */
  lemma {:induction false} StrictUntouched(d: Doc, isSpace: char -> bool)
    requires WellFormed(d, isSpace) && ProperSpace(isSpace)
    requires NoComments(d) && NoTrailingMarks(d)
    ensures Strip(Render(d), isSpace) == Render(d)
  {
    StripRender(d, isSpace);
    KeepsAll(d);
  }

  lemma {:induction false} KeepsAll(d: Doc)
    requires NoComments(d) && NoTrailingMarks(d)
    ensures Kept(d) == d
  {
    if d.Then? {
      KeepsAll(d.more);
    }
  }

  /** The document 1, an empty block comment, 2 reads back as one number. */
  lemma AtomsCanJoin(isSpace: char -> bool)
    requires ProperSpace(isSpace) && !isSpace('1') && !isSpace('2')
    ensures var d := Then(Atom(More('1', End)), Then(Block(End), Then(Atom(More('2', End)), Done)));
            && WellFormed(d, isSpace)
            && Lex(Strip(Render(d), isSpace), isSpace) == Then(Atom(More('1', More('2', End))), Done)
  {
    var one, two := More('1', End), More('2', End);
    var d := Then(Atom(one), Then(Block(End), Then(Atom(two), Done)));
    assert AllPlain(one, isSpace) && AllPlain(two, isSpace);
    StripRender(d, isSpace);
    assert Kept(d) == Then(Atom(one), Then(Atom(two), Done));
    assert Render(Kept(d)) == More('1', two);
  }
}
