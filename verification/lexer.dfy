/**
 * The older tokenizer (src/lexer.rs) with its own token vocabulary.
 *
 * The input is the source already split into grapheme clusters (the
 * segmentation is an external library).  The scanner is modelled as
 * written: the two places where it reads one grapheme past the end of the
 * input (an unterminated string, and the unguarded lookahead after a
 * number or identifier that ends the input) are index-out-of-bounds panics
 * in the source and a `LexFault` here.
 */
module Lexer {
  import opened Wrappers

  /** One user-perceived character of the source. */
  type Grapheme = string

  datatype TokenType =
    | Illegal | End
    | Assign
    | Plus | Minus | Multiply | Divide
    | Equal | GreaterThan | LessThan
    | And | Or | Not
    | Semicolon | LBrace | RBrace
    | Identifier
    | True | False
    | Number | String

  /** A token and the source text it stands for (`Token::from` is the constructor). */
  datatype Token = Token(tokenType: TokenType, literal: string)

  const ASSIGN: Grapheme := "\U{2B05}\U{FE0F}"         // ⬅️
  const PLUS: Grapheme := "\U{2795}"                   // ➕
  const MINUS: Grapheme := "\U{2796}"                  // ➖
  const MULTIPLY: Grapheme := "\U{2716}\U{FE0F}"       // ✖️
  const DIVIDE: Grapheme := "\U{2797}"                 // ➗
  const EQUAL: Grapheme := "\U{1F7F0}"                 // 🟰
  const GREATER_THAN: Grapheme := "\U{25B6}\U{FE0F}"   // ▶️
  const LESS_THAN: Grapheme := "\U{25C0}\U{FE0F}"      // ◀️
  const AND: Grapheme := "\U{1F501}"                   // 🔁
  const OR: Grapheme := "\U{1F500}"                    // 🔀
  const NOT: Grapheme := "\U{23F8}\U{FE0F}"            // ⏸️
  const SEMICOLON: Grapheme := "\U{2199}\U{FE0F}"      // ↙️
  const LBRACE: Grapheme := "\U{1F449}"                // 👉
  const RBRACE: Grapheme := "\U{1F448}"                // 👈
  const STRING_OPEN: Grapheme := "\U{1F5E8}\U{FE0F}"   // 🗨️
  const STRING_CLOSE: Grapheme := "\U{1F4AC}"          // 💬
  const TRUE: Grapheme := "\U{2714}\U{FE0F}"           // ✔️
  const FALSE: Grapheme := "\U{274C}"                  // ❌

  const SYMBOLS: seq<Grapheme> := [
    ASSIGN, PLUS, MINUS, MULTIPLY, DIVIDE, EQUAL, GREATER_THAN, LESS_THAN, AND, OR,
    NOT, SEMICOLON, LBRACE, RBRACE, STRING_OPEN, STRING_CLOSE, TRUE, FALSE
  ]

  /** 0️⃣ … 9️⃣ and 🔟. */
  const DIGITALS: seq<Grapheme> := [
    "0\U{FE0F}\U{20E3}", "1\U{FE0F}\U{20E3}", "2\U{FE0F}\U{20E3}", "3\U{FE0F}\U{20E3}",
    "4\U{FE0F}\U{20E3}", "5\U{FE0F}\U{20E3}", "6\U{FE0F}\U{20E3}", "7\U{FE0F}\U{20E3}",
    "8\U{FE0F}\U{20E3}", "9\U{FE0F}\U{20E3}", "\U{1F51F}"
  ]

  /** ⚪ ⚫ 🟤 🟣 🔵 🟢 🟡 🟠 🔴. */
  const DOTS: seq<Grapheme> := [
    "\U{26AA}", "\U{26AB}", "\U{1F7E4}", "\U{1F7E3}", "\U{1F535}",
    "\U{1F7E2}", "\U{1F7E1}", "\U{1F7E0}", "\U{1F534}"
  ]

  const SPACES: seq<Grapheme> := [" ", "\t", "\r", "\n"]

  predicate IsIdentifierChar(g: Grapheme) {
    g !in SYMBOLS && g !in DIGITALS && g !in DOTS && g !in SPACES
  }

  /** The token kinds written with one fixed symbol. */
  type FixedType = t: TokenType | t !in {Illegal, End, Identifier, Number, String} witness Assign

  /** The sixteen fixed-symbol arms of the scanner's match. */
  function FixedSymbol(g: Grapheme): Option<FixedType> {
    if g == ASSIGN then Some(Assign)
    else if g == PLUS then Some(Plus)
    else if g == MINUS then Some(Minus)
    else if g == MULTIPLY then Some(Multiply)
    else if g == DIVIDE then Some(Divide)
    else if g == EQUAL then Some(Equal)
    else if g == GREATER_THAN then Some(GreaterThan)
    else if g == LESS_THAN then Some(LessThan)
    else if g == AND then Some(And)
    else if g == OR then Some(Or)
    else if g == NOT then Some(Not)
    else if g == SEMICOLON then Some(Semicolon)
    else if g == TRUE then Some(True)
    else if g == FALSE then Some(False)
    else if g == LBRACE then Some(LBrace)
    else if g == RBRACE then Some(RBrace)
    else None
  }

  /** The symbol a fixed token kind is written with (the table read backwards). */
  function SymbolOf(t: TokenType): Option<Grapheme> {
    match t
    case Assign => Some(ASSIGN)
    case Plus => Some(PLUS)
    case Minus => Some(MINUS)
    case Multiply => Some(MULTIPLY)
    case Divide => Some(DIVIDE)
    case Equal => Some(EQUAL)
    case GreaterThan => Some(GREATER_THAN)
    case LessThan => Some(LESS_THAN)
    case And => Some(AND)
    case Or => Some(OR)
    case Not => Some(NOT)
    case Semicolon => Some(SEMICOLON)
    case True => Some(TRUE)
    case False => Some(FALSE)
    case LBrace => Some(LBRACE)
    case RBrace => Some(RBRACE)
    case _ => None
  }

  lemma SymbolOfIsMatched(t: TokenType)
    requires SymbolOf(t).Some?
    ensures FixedSymbol(SymbolOf(t).value) == Some(t)
  {
  }

  lemma MatchedIsSymbolOf(g: Grapheme)
    requires FixedSymbol(g).Some?
    ensures SymbolOf(FixedSymbol(g).value) == Some(g)
  {
  }

  /** The fixed-symbol arms are a bijection between their symbols and their token kinds. */
  lemma FixedSymbolRoundTrip(g: Grapheme, t: TokenType)
    ensures FixedSymbol(g) == Some(t) <==> SymbolOf(t) == Some(g)
  {
    if FixedSymbol(g) == Some(t) {
      MatchedIsSymbolOf(g);
    }
    if SymbolOf(t) == Some(g) {
      SymbolOfIsMatched(t);
    }
  }

  /** How the scanner treats a grapheme, tried in the order of the scanner's match arms. */
  datatype Kind =
    | Fixed(t: FixedType)   // one of the sixteen fixed symbols
    | Opener                // 🗨️
    | Digital               // a keycap digit or 🔟
    | Blank                 // space, tab, carriage return or line feed
    | Letter                // a grapheme in none of the tables
    | Closer                // 💬
    | Dot                   // a coloured circle

  function KindOf(g: Grapheme): Kind {
    match FixedSymbol(g)
    case Some(t) => Fixed(t)
    case None =>
      if g == STRING_OPEN then Opener
      else if g in DIGITALS then Digital
      else if g in SPACES then Blank
      else if IsIdentifierChar(g) then Letter
      else if g == STRING_CLOSE then Closer
      else Dot
  }

  /** The kind of every grapheme of the input. */
  function Kinds(chars: seq<Grapheme>): (kinds: seq<Kind>)
    ensures |kinds| == |chars|
  {
    if chars == [] then [] else Kinds(chars[..|chars| - 1]) + [KindOf(chars[|chars| - 1])]
  }

  lemma {:induction false} KindsAt(chars: seq<Grapheme>, k: nat)
    requires k < |chars|
    ensures Kinds(chars)[k] == KindOf(chars[k])
  {
    if k < |chars| - 1 {
      assert chars[..|chars| - 1][k] == chars[k];
      KindsAt(chars[..|chars| - 1], k);
    }
  }

  /** The symbols outside the fixed-symbol arms are the two string quotes. */
  lemma UnmatchedSymbolIsQuote(g: Grapheme)
    requires g in SYMBOLS && FixedSymbol(g).None?
    ensures g == STRING_OPEN || g == STRING_CLOSE
  {
  }

  lemma FixedSymbolIsSymbol(g: Grapheme)
    requires FixedSymbol(g).Some?
    ensures g in SYMBOLS
  {
  }

  /** Symbols are an emoji with a variation selector or one of ten single code points. */
  lemma SymbolShape(g: Grapheme)
    requires g in SYMBOLS
    ensures || (|g| == 2 && g[1] == '\U{FE0F}')
            || (|g| == 1 && g[0] in {'\U{2795}', '\U{2796}', '\U{2797}', '\U{1F7F0}', '\U{1F501}',
                                     '\U{1F500}', '\U{1F449}', '\U{1F448}', '\U{1F4AC}', '\U{274C}'})
  {
  }

  /** Digits are three-code-point keycaps, or 🔟. */
  lemma DigitalShape(g: Grapheme)
    requires g in DIGITALS
    ensures |g| == 3 || g == ['\U{1F51F}']
  {
  }

  lemma DotShape(g: Grapheme)
    requires g in DOTS
    ensures |g| == 1 && g[0] in {'\U{26AA}', '\U{26AB}', '\U{1F7E4}', '\U{1F7E3}', '\U{1F535}',
                                 '\U{1F7E2}', '\U{1F7E1}', '\U{1F7E0}', '\U{1F534}'}
  {
  }

  lemma SpaceShape(g: Grapheme)
    requires g in SPACES
    ensures |g| == 1 && g[0] in {' ', '\t', '\r', '\n'}
  {
  }

  lemma DigitalsAreNoSymbols(g: Grapheme)
    requires g in DIGITALS
    ensures g !in SYMBOLS
  {
    DigitalShape(g);
    if g in SYMBOLS {
      SymbolShape(g);
    }
  }

  lemma DotsAreNoSymbols(g: Grapheme)
    requires g in DOTS
    ensures g !in SYMBOLS && g !in DIGITALS && g !in SPACES
  {
    DotShape(g);
    if g in SYMBOLS {
      SymbolShape(g);
    }
    if g in DIGITALS {
      DigitalShape(g);
    }
    if g in SPACES {
      SpaceShape(g);
    }
  }

  lemma SpacesAreNoSymbols(g: Grapheme)
    requires g in SPACES
    ensures g !in SYMBOLS && g !in DIGITALS
  {
    SpaceShape(g);
    if g in SYMBOLS {
      SymbolShape(g);
    }
    if g in DIGITALS {
      DigitalShape(g);
    }
  }

  /** A grapheme outside the symbol table is not matched by a fixed-symbol arm. */
  lemma NotSymbolNotFixed(g: Grapheme)
    requires g !in SYMBOLS
    ensures FixedSymbol(g).None?
  {
    if FixedSymbol(g).Some? {
      FixedSymbolIsSymbol(g);
    }
  }

  /** The kinds agree with the tables the scanner's helpers consult. */
  lemma {:induction false} KindMatchesTables(g: Grapheme)
    ensures KindOf(g) == Closer <==> g == STRING_CLOSE
    ensures KindOf(g) == Digital <==> g in DIGITALS
    ensures KindOf(g) == Dot <==> g in DOTS
    ensures KindOf(g) == Blank <==> g in SPACES
    ensures KindOf(g) == Letter <==> IsIdentifierChar(g)
  {
    if g in DIGITALS {
      DigitalsAreNoSymbols(g);
      NotSymbolNotFixed(g);
    } else if g in DOTS {
      DotsAreNoSymbols(g);
      NotSymbolNotFixed(g);
    } else if g in SPACES {
      SpacesAreNoSymbols(g);
      NotSymbolNotFixed(g);
    } else if g !in SYMBOLS {
      NotSymbolNotFixed(g);
    } else if FixedSymbol(g).None? {
      UnmatchedSymbolIsQuote(g);
    }
  }

  /** The grapheme sequence concatenated into one string. */
  function Concat(gs: seq<Grapheme>): string {
    if gs == [] then "" else Concat(gs[..|gs| - 1]) + gs[|gs| - 1]
  }

  lemma ConcatSnoc(gs: seq<Grapheme>, i: nat, j: nat)
    requires i <= j < |gs|
    ensures Concat(gs[i..j + 1]) == Concat(gs[i..j]) + gs[j]
  {
    assert gs[i..j + 1][..j - i] == gs[i..j];
  }

  /** What the scanner does instead of returning tokens: an index past the end. */
  datatype LexFault =
    | UnterminatedString(open: nat)   // no 💬 after the 🗨️ at `open`
    | LookaheadPastEnd(start: nat)    // the number or identifier starting at `start` runs to the end

  datatype RunKind = NumberRun | IdentifierRun

  /** Whether a grapheme of kind `k` extends a run. */
  predicate Continues(run: RunKind, k: Kind) {
    match run
    case NumberRun => k == Digital || k == Dot
    case IdentifierRun => k == Letter
  }

  /** The first 💬 at or after `from`. */
  function CloseOf(kinds: seq<Kind>, from: nat): (r: Option<nat>)
    ensures r.Some? ==> from <= r.value < |kinds| && kinds[r.value] == Closer
    ensures r.Some? ==> forall k :: from <= k < r.value ==> kinds[k] != Closer
    ensures r.None? ==> forall k :: from <= k < |kinds| ==> kinds[k] != Closer
    decreases |kinds| - from
  {
    if from >= |kinds| then None
    else if kinds[from] == Closer then Some(from)
    else CloseOf(kinds, from + 1)
  }

  /**
   * The last index of the maximal run that begins at `start`, or None when
   * the run reaches the end of the input (where the scanner's lookahead
   * reads past the end).
   */
  function RunLast(kinds: seq<Kind>, run: RunKind, start: nat): (r: Option<nat>)
    requires start < |kinds|
    ensures r.Some? ==> start <= r.value && r.value + 1 < |kinds| && !Continues(run, kinds[r.value + 1])
    ensures r.Some? ==> forall k :: start < k <= r.value ==> Continues(run, kinds[k])
    ensures r.None? ==> forall k :: start < k < |kinds| ==> Continues(run, kinds[k])
    decreases |kinds| - start
  {
    if start + 1 >= |kinds| then None
    else if Continues(run, kinds[start + 1]) then RunLast(kinds, run, start + 1)
    else Some(start)
  }

  /** One step of the scanner: a token and where scanning resumes, a skipped blank, or a fault. */
  datatype Step =
    | Emit(token: Token, next: nat)
    | Skip(next: nat)
    | Fault(fault: LexFault)

  /** The step the scanner takes at `pos`, given the kinds of all graphemes. */
  function ScanAt(chars: seq<Grapheme>, kinds: seq<Kind>, pos: nat): (r: Step)
    requires |kinds| == |chars| && pos < |chars|
    ensures !r.Fault? ==> pos < r.next <= |chars|
  {
    match kinds[pos]
    case Fixed(t) => Emit(Token(t, chars[pos]), pos + 1)
    case Opener =>
      (match CloseOf(kinds, pos + 1)
       case None => Fault(UnterminatedString(pos))
       case Some(j) => Emit(Token(String, Concat(chars[pos + 1..j])), j + 1))
    case Digital =>
      (match RunLast(kinds, NumberRun, pos)
       case None => Fault(LookaheadPastEnd(pos))
       case Some(j) => Emit(Token(Number, Concat(chars[pos..j + 1])), j + 1))
    case Blank => Skip(pos + 1)
    case Letter =>
      (match RunLast(kinds, IdentifierRun, pos)
       case None => Fault(LookaheadPastEnd(pos))
       case Some(j) => Emit(Token(Identifier, Concat(chars[pos..j + 1])), j + 1))
    case Closer => Emit(Token(Illegal, chars[pos]), pos + 1)
    case Dot => Emit(Token(Illegal, chars[pos]), pos + 1)
  }

  function Prepend(t: Token, rest: Result<seq<Token>, LexFault>): Result<seq<Token>, LexFault> {
    match rest
    case Ok(ts) => Ok([t] + ts)
    case Err(e) => Err(e)
  }

  function PrependAll(ts: seq<Token>, rest: Result<seq<Token>, LexFault>): Result<seq<Token>, LexFault> {
    match rest
    case Ok(us) => Ok(ts + us)
    case Err(e) => Err(e)
  }

  /** The tokens the scanner produces from position `pos` on. */
  function LexFrom(chars: seq<Grapheme>, kinds: seq<Kind>, pos: nat): Result<seq<Token>, LexFault>
    requires |kinds| == |chars|
    decreases |chars| - pos
  {
    if pos >= |chars| then Ok([Token(End, "")])
    else
      match ScanAt(chars, kinds, pos)
      case Emit(t, next) => Prepend(t, LexFrom(chars, kinds, next))
      case Skip(next) => LexFrom(chars, kinds, next)
      case Fault(f) => Err(f)
  }

  /** The tokens of a whole input. */
  function Lex(chars: seq<Grapheme>): (r: Result<seq<Token>, LexFault>)
    ensures r.Ok? ==> |r.value| >= 1 && r.value[|r.value| - 1] == Token(End, "")
  {
    var r := LexFrom(chars, Kinds(chars), 0);
    if r.Ok? then LexFromEnds(chars, Kinds(chars), 0); r else r
  }

  /** What a handler returns: the token and the index of the last grapheme it consumed. */
  datatype Scanned = Scanned(token: Token, last: nat)

  /**
   * `handle_string`: from the 🗨️ at `pos`, the text up to the next 💬.
   * With no 💬 left the source indexes past the end.
   */
  method HandleString(chars: seq<Grapheme>, pos: nat) returns (r: Result<Scanned, LexFault>)
    requires pos < |chars|
    ensures r.Err? <==> CloseOf(Kinds(chars), pos + 1).None?
    ensures r.Err? ==> r.error == UnterminatedString(pos)
    ensures r.Ok? ==> CloseOf(Kinds(chars), pos + 1) == Some(r.value.last)
    ensures r.Ok? ==> r.value.token == Token(String, Concat(chars[pos + 1..r.value.last]))
  {
    var literal := "";
    var p := pos + 1;
    while p < |chars| && chars[p] != STRING_CLOSE
      invariant pos + 1 <= p
      invariant p <= |chars| || p == pos + 1
      invariant forall k :: pos < k < p && k < |chars| ==> chars[k] != STRING_CLOSE
      invariant p <= |chars| ==> literal == Concat(chars[pos + 1..p])
      decreases |chars| - p
    {
      ConcatSnoc(chars, pos + 1, p);
      literal := literal + chars[p];
      p := p + 1;
    }
    if p >= |chars| {
      NoCloseFound(chars, pos);
      return Err(UnterminatedString(pos));
    }
    CloseFound(chars, pos, p);
    return Ok(Scanned(Token(String, literal), p));
  }

  /**
   * The loop test of `handle_number` (a digit or a dot) or of
   * `handle_identifier` (`is_identifier_char`) on the grapheme at `i`.
   */
  method RunContinuesAt(chars: seq<Grapheme>, run: RunKind, i: nat) returns (b: bool)
    requires i < |chars|
    ensures b == Continues(run, Kinds(chars)[i])
  {
    KindsAt(chars, i);
    KindMatchesTables(chars[i]);
    match run
    case NumberRun =>
      b := chars[i] in DIGITALS || chars[i] in DOTS;
    case IdentifierRun =>
      b := IsIdentifierChar(chars[i]);
  }

  /**
   * `handle_number`: the digit at `pos` and the digits and dots that follow
   * it.  The lookahead is unguarded, so a run that reaches the end of the
   * input reads past it.
   */
  method HandleNumber(chars: seq<Grapheme>, pos: nat) returns (r: Result<Scanned, LexFault>)
    requires pos < |chars|
    ensures r.Err? <==> RunLast(Kinds(chars), NumberRun, pos).None?
    ensures r.Err? ==> r.error == LookaheadPastEnd(pos)
    ensures r.Ok? ==> RunLast(Kinds(chars), NumberRun, pos) == Some(r.value.last)
    ensures r.Ok? ==> r.value.token == Token(Number, Concat(chars[pos..r.value.last + 1]))
  {
    var literal := chars[pos];
    var p := pos;
    assert chars[pos..pos + 1] == [chars[pos]];
    assert Concat(chars[pos..pos + 1]) == Concat([]) + chars[pos];
    while p + 1 < |chars|
      invariant pos <= p < |chars|
      invariant forall k :: pos < k <= p ==> Continues(NumberRun, Kinds(chars)[k])
      invariant literal == Concat(chars[pos..p + 1])
      decreases |chars| - p
    {
      var more := RunContinuesAt(chars, NumberRun, p + 1);
      if !more {
        RunEndIsUnique(Kinds(chars), NumberRun, pos, p);
        return Ok(Scanned(Token(Number, literal), p));
      }
      p := p + 1;
      ConcatSnoc(chars, pos, p);
      literal := literal + chars[p];
    }
    RunToEndHasNoLast(Kinds(chars), NumberRun, pos);
    return Err(LookaheadPastEnd(pos));
  }

  /**
   * `handle_identifier`: the identifier grapheme at `pos` and the
   * identifier graphemes that follow it, with the same unguarded lookahead.
   */
  method HandleIdentifier(chars: seq<Grapheme>, pos: nat) returns (r: Result<Scanned, LexFault>)
    requires pos < |chars|
    ensures r.Err? <==> RunLast(Kinds(chars), IdentifierRun, pos).None?
    ensures r.Err? ==> r.error == LookaheadPastEnd(pos)
    ensures r.Ok? ==> RunLast(Kinds(chars), IdentifierRun, pos) == Some(r.value.last)
    ensures r.Ok? ==> r.value.token == Token(Identifier, Concat(chars[pos..r.value.last + 1]))
  {
    var literal := chars[pos];
    var p := pos;
    assert chars[pos..pos + 1] == [chars[pos]];
    assert Concat(chars[pos..pos + 1]) == Concat([]) + chars[pos];
    while p + 1 < |chars|
      invariant pos <= p < |chars|
      invariant forall k :: pos < k <= p ==> Continues(IdentifierRun, Kinds(chars)[k])
      invariant literal == Concat(chars[pos..p + 1])
      decreases |chars| - p
    {
      var more := RunContinuesAt(chars, IdentifierRun, p + 1);
      if !more {
        RunEndIsUnique(Kinds(chars), IdentifierRun, pos, p);
        return Ok(Scanned(Token(Identifier, literal), p));
      }
      p := p + 1;
      ConcatSnoc(chars, pos, p);
      literal := literal + chars[p];
    }
    RunToEndHasNoLast(Kinds(chars), IdentifierRun, pos);
    return Err(LookaheadPastEnd(pos));
  }

  /** The kind of the grapheme at `i`: the order of tests of the scanner's match. */
  method KindAt(chars: seq<Grapheme>, i: nat) returns (kind: Kind)
    requires i < |chars|
    ensures kind == Kinds(chars)[i]
  {
    KindsAt(chars, i);
    kind := KindOf(chars[i]);
  }

  /** The closing-quote test of `handle_string`, read through the kinds of the input. */
  lemma {:induction false} ClosersMatchKinds(chars: seq<Grapheme>)
    ensures forall k {:trigger Kinds(chars)[k]} :: 0 <= k < |chars| ==>
      (chars[k] == STRING_CLOSE <==> Kinds(chars)[k] == Closer)
  {
    forall k | 0 <= k < |chars|
      ensures chars[k] == STRING_CLOSE <==> Kinds(chars)[k] == Closer
    {
      KindsAt(chars, k);
      KindMatchesTables(chars[k]);
    }
  }

  /**
   * The body of `tokenize`'s loop: the match on the grapheme at `pos`,
   * calling the helpers for strings, numbers and identifiers.
   */
  method ScanStep(chars: seq<Grapheme>, pos: nat) returns (step: Step)
    requires pos < |chars|
    ensures step == ScanAt(chars, Kinds(chars), pos)
  {
    var g := chars[pos];
    var kind := KindAt(chars, pos);
    match kind {
    case Fixed(t) =>
      step := Emit(Token(t, g), pos + 1);
      assert step == ScanAt(chars, Kinds(chars), pos);
    case Opener =>
      var scanned := HandleString(chars, pos);
      if scanned.Err? {
        step := Fault(scanned.error);
        assert step == ScanAt(chars, Kinds(chars), pos);
        return;
      }
      step := Emit(scanned.value.token, scanned.value.last + 1);
      assert step == ScanAt(chars, Kinds(chars), pos);
    case Digital =>
      var scanned := HandleNumber(chars, pos);
      if scanned.Err? {
        step := Fault(scanned.error);
        assert step == ScanAt(chars, Kinds(chars), pos);
        return;
      }
      step := Emit(scanned.value.token, scanned.value.last + 1);
      assert step == ScanAt(chars, Kinds(chars), pos);
    case Blank =>
      step := Skip(pos + 1);
      assert step == ScanAt(chars, Kinds(chars), pos);
    case Letter =>
      var scanned := HandleIdentifier(chars, pos);
      if scanned.Err? {
        step := Fault(scanned.error);
        assert step == ScanAt(chars, Kinds(chars), pos);
        return;
      }
      step := Emit(scanned.value.token, scanned.value.last + 1);
      assert step == ScanAt(chars, Kinds(chars), pos);
    case Closer =>
      step := Emit(Token(Illegal, g), pos + 1);
      assert step == ScanAt(chars, Kinds(chars), pos);
    case Dot =>
      step := Emit(Token(Illegal, g), pos + 1);
      assert step == ScanAt(chars, Kinds(chars), pos);
    }
  }

  /**
   * `tokenize`: scans the graphemes left to right, skipping blanks, and
   * ends the token list with one End token.
   */
  method Tokenize(chars: seq<Grapheme>) returns (r: Result<seq<Token>, LexFault>)
    ensures r == Lex(chars)
  {
    ghost var kinds := Kinds(chars);
    var pos := 0;
    var tokens: seq<Token> := [];
    assert PrependAll(tokens, Lex(chars)) == Lex(chars) by {
      if Lex(chars).Ok? {
        assert tokens + Lex(chars).value == Lex(chars).value;
      }
    }
    while pos < |chars|
      invariant pos <= |chars|
      invariant Lex(chars) == PrependAll(tokens, LexFrom(chars, kinds, pos))
      decreases |chars| - pos
    {
      var step := ScanStep(chars, pos);
      match step {
      case Fault(f) =>
        return Err(f);
      case Skip(next) =>
        pos := next;
      case Emit(token, next) =>
        PrependAllStep(tokens, token, LexFrom(chars, kinds, next));
        pos := next;
        tokens := tokens + [token];
      }
    }
    return Ok(tokens + [Token(End, "")]);
  }

  /** A 💬 with none before it from `from` on is the one `CloseOf` finds. */
  lemma FirstCloseIsUnique(kinds: seq<Kind>, from: nat, j: nat)
    requires from <= j < |kinds| && kinds[j] == Closer
    requires forall k :: from <= k < j ==> kinds[k] != Closer
    ensures CloseOf(kinds, from) == Some(j)
  {
  }

  /** A run end that the next grapheme stops is the one `RunLast` finds. */
  lemma RunEndIsUnique(kinds: seq<Kind>, run: RunKind, start: nat, j: nat)
    requires start <= j && j + 1 < |kinds|
    requires forall k :: start < k <= j ==> Continues(run, kinds[k])
    requires !Continues(run, kinds[j + 1])
    ensures RunLast(kinds, run, start) == Some(j)
  {
  }

  /** A run that reaches the end of the input has no last index. */
  lemma RunToEndHasNoLast(kinds: seq<Kind>, run: RunKind, start: nat)
    requires start < |kinds|
    requires forall k :: start < k < |kinds| ==> Continues(run, kinds[k])
    ensures RunLast(kinds, run, start) == None
  {
  }

  lemma PrependAllStep(ts: seq<Token>, t: Token, rest: Result<seq<Token>, LexFault>)
    ensures PrependAll(ts, Prepend(t, rest)) == PrependAll(ts + [t], rest)
  {
    if rest.Ok? {
      assert ts + ([t] + rest.value) == (ts + [t]) + rest.value;
    }
  }



  lemma {:induction false} NoCloseFound(chars: seq<Grapheme>, pos: nat)
    requires pos < |chars|
    requires forall k :: pos < k < |chars| ==> chars[k] != STRING_CLOSE
    ensures CloseOf(Kinds(chars), pos + 1) == None
  {
    ClosersMatchKinds(chars);
  }

  lemma {:induction false} CloseFound(chars: seq<Grapheme>, pos: nat, j: nat)
    requires pos < j < |chars| && chars[j] == STRING_CLOSE
    requires forall k :: pos < k < j ==> chars[k] != STRING_CLOSE
    ensures CloseOf(Kinds(chars), pos + 1) == Some(j)
  {
    ClosersMatchKinds(chars);
    FirstCloseIsUnique(Kinds(chars), pos + 1, j);
  }

  /** The fixed-symbol arms never produce an End token. */
  lemma {:induction false} LexFromEnds(chars: seq<Grapheme>, kinds: seq<Kind>, pos: nat)
    requires |kinds| == |chars|
    requires LexFrom(chars, kinds, pos).Ok?
    ensures var ts := LexFrom(chars, kinds, pos).value;
      && |ts| >= 1
      && ts[|ts| - 1] == Token(End, "")
      && forall i :: 0 <= i < |ts| - 1 ==> ts[i].tokenType != End
    decreases |chars| - pos
  {
    if pos < |chars| {
      match ScanAt(chars, kinds, pos)
      case Emit(t, next) =>
        LexFromEnds(chars, kinds, next);
        var rest := LexFrom(chars, kinds, next).value;
        assert LexFrom(chars, kinds, pos).value == [t] + rest;
      case Skip(next) =>
        LexFromEnds(chars, kinds, next);
      case Fault(_) =>
    }
  }

  /** A successful scan returns End exactly once, as its last token. */
  lemma LexEndsWithOneEnd(chars: seq<Grapheme>)
    requires Lex(chars).Ok?
    ensures var ts := Lex(chars).value;
      && |ts| >= 1
      && ts[|ts| - 1] == Token(End, "")
      && forall i :: 0 <= i < |ts| - 1 ==> ts[i].tokenType != End
  {
    LexFromEnds(chars, Kinds(chars), 0);
  }

  /** A fixed symbol yields one token of its kind, spelled with the symbol. */
  lemma FixedSymbolToken(chars: seq<Grapheme>, pos: nat, t: TokenType)
    requires pos < |chars| && SymbolOf(t) == Some(chars[pos])
    ensures LexFrom(chars, Kinds(chars), pos)
         == Prepend(Token(t, chars[pos]), LexFrom(chars, Kinds(chars), pos + 1))
  {
    KindsAt(chars, pos);
    FixedSymbolRoundTrip(chars[pos], t);
  }

  /** A 💬 outside a string, or a dot outside a number, is an Illegal token. */
  lemma StrayGraphemeIsIllegal(chars: seq<Grapheme>, pos: nat)
    requires pos < |chars| && (chars[pos] == STRING_CLOSE || chars[pos] in DOTS)
    ensures LexFrom(chars, Kinds(chars), pos)
         == Prepend(Token(Illegal, chars[pos]), LexFrom(chars, Kinds(chars), pos + 1))
  {
    KindsAt(chars, pos);
    KindMatchesTables(chars[pos]);
  }

  /** A 🗨️ with no 💬 after it makes the scan fail. */
  lemma UnterminatedStringFaults(chars: seq<Grapheme>, pos: nat)
    requires pos < |chars| && chars[pos] == STRING_OPEN
    requires forall k :: pos < k < |chars| ==> chars[k] != STRING_CLOSE
    ensures LexFrom(chars, Kinds(chars), pos) == Err(UnterminatedString(pos))
  {
    KindsAt(chars, pos);
    NoCloseFound(chars, pos);
  }

  /** Blanks produce no tokens: what is left after only blanks lexes to End alone. */
  lemma {:induction false} BlanksOnly(chars: seq<Grapheme>, pos: nat)
    requires forall k :: pos <= k < |chars| ==> chars[k] in SPACES
    ensures LexFrom(chars, Kinds(chars), pos) == Ok([Token(End, "")])
    decreases |chars| - pos
  {
    if pos < |chars| {
      KindsAt(chars, pos);
      KindMatchesTables(chars[pos]);
      BlanksOnly(chars, pos + 1);
    }
  }

  lemma {:induction false} TrailingRunFaultsFrom(chars: seq<Grapheme>, kinds: seq<Kind>, pos: nat)
    requires |kinds| == |chars| && pos < |chars|
    requires kinds[|chars| - 1] == Digital || kinds[|chars| - 1] == Letter
    ensures LexFrom(chars, kinds, pos).Err?
    decreases |chars| - pos
  {
    match ScanAt(chars, kinds, pos)
    case Emit(t, next) =>
      if next == |chars| {
        // Only a fixed symbol, a closed string or a stray grapheme ends at the last position.
        assert false;
      }
      TrailingRunFaultsFrom(chars, kinds, next);
    case Skip(next) =>
      if next < |chars| {
        TrailingRunFaultsFrom(chars, kinds, next);
      }
    case Fault(_) =>
  }

  /**
   * The lookahead of the number and identifier helpers is unguarded: any
   * input whose last grapheme is a digit or an identifier grapheme makes
   * the scan fail.
   */
  lemma TrailingRunFaults(chars: seq<Grapheme>)
    requires |chars| > 0
    requires chars[|chars| - 1] in DIGITALS || IsIdentifierChar(chars[|chars| - 1])
    ensures Lex(chars).Err?
  {
    KindsAt(chars, |chars| - 1);
    KindMatchesTables(chars[|chars| - 1]);
    TrailingRunFaultsFrom(chars, Kinds(chars), 0);
  }

  /** A blank produces no token: scanning goes on after it. */
  lemma BlankSkipped(chars: seq<Grapheme>, pos: nat)
    requires pos < |chars| && chars[pos] in SPACES
    ensures LexFrom(chars, Kinds(chars), pos) == LexFrom(chars, Kinds(chars), pos + 1)
  {
    KindsAt(chars, pos);
    KindMatchesTables(chars[pos]);
  }

  /**
   * A string token is the text strictly between the 🗨️ and the next 💬,
   * and scanning resumes after the 💬.
   */
  lemma StringToken(chars: seq<Grapheme>, pos: nat, j: nat)
    requires pos < j < |chars| && chars[pos] == STRING_OPEN && chars[j] == STRING_CLOSE
    requires forall k :: pos < k < j ==> chars[k] != STRING_CLOSE
    ensures LexFrom(chars, Kinds(chars), pos)
         == Prepend(Token(String, Concat(chars[pos + 1..j])), LexFrom(chars, Kinds(chars), j + 1))
  {
    var kinds := Kinds(chars);
    assert kinds[pos] == Opener by {
      KindsAt(chars, pos);
      OpenerKind();
    }
    assert CloseOf(kinds, pos + 1) == Some(j) by {
      CloseFound(chars, pos, j);
    }
    assert ScanAt(chars, kinds, pos) == Emit(Token(String, Concat(chars[pos + 1..j])), j + 1);
  }

  lemma OpenerKind()
    ensures KindOf(STRING_OPEN) == Opener
  {
  }

  /**
   * A number token starts at a digit and covers the maximal run of digits
   * and dots after it; scanning resumes after the run.
   */
  lemma NumberToken(chars: seq<Grapheme>, pos: nat, j: nat)
    requires pos <= j && j + 1 < |chars| && chars[pos] in DIGITALS
    requires forall k :: pos < k <= j ==> chars[k] in DIGITALS || chars[k] in DOTS
    requires chars[j + 1] !in DIGITALS && chars[j + 1] !in DOTS
    ensures LexFrom(chars, Kinds(chars), pos)
         == Prepend(Token(Number, Concat(chars[pos..j + 1])), LexFrom(chars, Kinds(chars), j + 1))
  {
    var kinds := Kinds(chars);
    assert kinds[pos] == Digital by {
      KindsAt(chars, pos);
      KindMatchesTables(chars[pos]);
    }
    assert RunLast(kinds, NumberRun, pos) == Some(j) by {
      RunKindsMatch(chars, NumberRun, pos, j);
      RunEndIsUnique(kinds, NumberRun, pos, j);
    }
    RunStep(chars, kinds, NumberRun, pos, j);
  }

  /**
   * An identifier token is the maximal run of identifier graphemes from
   * `pos`; scanning resumes after the run.
   */
  lemma IdentifierToken(chars: seq<Grapheme>, pos: nat, j: nat)
    requires pos <= j && j + 1 < |chars|
    requires forall k :: pos <= k <= j ==> IsIdentifierChar(chars[k])
    requires !IsIdentifierChar(chars[j + 1])
    ensures LexFrom(chars, Kinds(chars), pos)
         == Prepend(Token(Identifier, Concat(chars[pos..j + 1])), LexFrom(chars, Kinds(chars), j + 1))
  {
    var kinds := Kinds(chars);
    assert kinds[pos] == Letter by {
      KindsAt(chars, pos);
      KindMatchesTables(chars[pos]);
    }
    assert RunLast(kinds, IdentifierRun, pos) == Some(j) by {
      RunKindsMatch(chars, IdentifierRun, pos, j);
      RunEndIsUnique(kinds, IdentifierRun, pos, j);
    }
    RunStep(chars, kinds, IdentifierRun, pos, j);
  }

  /** A run the kinds delimit becomes one token, and scanning resumes after it. */
  lemma RunStep(chars: seq<Grapheme>, kinds: seq<Kind>, run: RunKind, pos: nat, j: nat)
    requires |kinds| == |chars| && pos < |chars|
    requires kinds[pos] == (if run == NumberRun then Digital else Letter)
    requires RunLast(kinds, run, pos) == Some(j)
    ensures LexFrom(chars, kinds, pos)
         == Prepend(Token(if run == NumberRun then Number else Identifier, Concat(chars[pos..j + 1])),
                    LexFrom(chars, kinds, j + 1))
  {
  }

  /** The helpers' loop tests, read through the kinds, over a run and the grapheme after it. */
  lemma RunKindsMatch(chars: seq<Grapheme>, run: RunKind, pos: nat, j: nat)
    requires pos <= j && j + 1 < |chars|
    ensures forall k :: pos < k <= j + 1 ==>
      (Continues(run, Kinds(chars)[k]) <==>
        match run
        case NumberRun => chars[k] in DIGITALS || chars[k] in DOTS
        case IdentifierRun => IsIdentifierChar(chars[k]))
  {
    forall k | pos < k <= j + 1
      ensures Continues(run, Kinds(chars)[k]) <==>
        match run
        case NumberRun => chars[k] in DIGITALS || chars[k] in DOTS
        case IdentifierRun => IsIdentifierChar(chars[k])
    {
      KindsAt(chars, k);
      KindMatchesTables(chars[k]);
    }
  }

  const CR_LF: Grapheme := "\r\n"

  /**
   * A Windows line break is one grapheme, "\r\n", which the blank table
   * lacks: it is an identifier grapheme, not a blank.
   */
  lemma CrLfIsIdentifierChar()
    ensures IsIdentifierChar(CR_LF) && CR_LF !in SPACES
  {
    if CR_LF in SYMBOLS {
      SymbolShape(CR_LF);
    }
    if CR_LF in DIGITALS {
      DigitalShape(CR_LF);
    }
    if CR_LF in DOTS {
      DotShape(CR_LF);
    }
    if CR_LF in SPACES {
      SpaceShape(CR_LF);
    }
  }

  /** So a lone "\r\n" between two other tokens scans as an identifier of its own. */
  lemma CrLfScansAsIdentifier(chars: seq<Grapheme>, pos: nat)
    requires pos + 1 < |chars| && chars[pos] == CR_LF && !IsIdentifierChar(chars[pos + 1])
    ensures LexFrom(chars, Kinds(chars), pos)
         == Prepend(Token(Identifier, CR_LF), LexFrom(chars, Kinds(chars), pos + 1))
  {
    CrLfIsIdentifierChar();
    IdentifierToken(chars, pos, pos);
    assert Concat(chars[pos..pos]) == "" by {
      assert chars[pos..pos] == [];
    }
    ConcatSnoc(chars, pos, pos);
    assert Concat(chars[pos..pos + 1]) == CR_LF;
  }
}
