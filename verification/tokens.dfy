/**
 * The token vocabulary of the newer front end (src/types/token.rs): the
 * token kinds, the token record with its constructors, and the grapheme
 * tables that classify the source text.
 */
module Tokens {
  import opened Numerals

  datatype TokenType =
    | Illegal | Start
    | Assign
    | Plus | Minus | Multiply | Divide | Modulo
    | Equal | NotEqual | GreaterThan | GreaterThanOrEqual | LessThan | LessThanOrEqual
    | And | Or | Not
    | Comma | Semicolon | LParenthesis | RParenthesis | LBracket | RBracket | LBrace | RBrace
    | Identifier
    | True | False
    | If | Else | While | Function | Return
    | Integer | Float | String

  /** A token: its kind and the exact source text that produced it. */
  datatype Token = Token(tokenType: TokenType, literal: string)

  /** `Token::from`: the token of kind `t` whose literal is `literal`. */
  function From(t: TokenType, literal: string): (r: Token)
    ensures r.tokenType == t && r.literal == literal
  {
    Token(t, literal)
  }

  /** `Token::from_str`: the same token, the borrowed literal copied. */
  function FromStr(t: TokenType, literal: string): (r: Token)
    ensures r == From(t, literal)
  {
    Token(t, literal)
  }

  /** `Token::start`: the start sentinel, with an empty literal. */
  function Start(): (r: Token)
    ensures r.tokenType == TokenType.Start && r.literal == ""
  {
    Token(TokenType.Start, "")
  }

  /** The 31 reserved symbol glyphs, in the order of the source table. */
  const RESERVED_SYMBOLS: seq<string> := OPERATOR_SYMBOLS + DELIMITER_SYMBOLS + KEYWORD_SYMBOLS

  /** ⬅️ ➕ ➖ ✖️ ➗ 〰️ 🟰 ▶️ ◀️ 🔁 🔀 ⏸️: the first twelve entries. */
  const OPERATOR_SYMBOLS: seq<string> := [
    "\U{2B05}\U{FE0F}", "\U{2795}", "\U{2796}", "\U{2716}\U{FE0F}", "\U{2797}", "\U{3030}\U{FE0F}",
    "\U{1F7F0}", "\U{25B6}\U{FE0F}", "\U{25C0}\U{FE0F}", "\U{1F501}", "\U{1F500}", "\U{23F8}\U{FE0F}"
  ]

  /** ↙️ 🦶 🌜 🌛 👉 👈 🫸 🫷 🗨️ 💬: the next ten. */
  const DELIMITER_SYMBOLS: seq<string> := [
    "\U{2199}\U{FE0F}", "\U{1F9B6}", "\U{1F31C}", "\U{1F31B}", "\U{1F449}", "\U{1F448}",
    "\U{1FAF8}", "\U{1FAF7}", "\U{1F5E8}\U{FE0F}", "\U{1F4AC}"
  ]

  /** ✔️ ❌ ❓ ❗ ⁉️ ⭕ 📛 🔙 #️⃣: the last nine. */
  const KEYWORD_SYMBOLS: seq<string> := [
    "\U{2714}\U{FE0F}", "\U{274C}", "\U{2753}", "\U{2757}", "\U{2049}\U{FE0F}", "\U{2B55}",
    "\U{1F4DB}", "\U{1F519}", "#\U{FE0F}\U{20E3}"
  ]

  /** The keycap digits 0️⃣ … 9️⃣. */
  const DIGITALS: seq<string> := [
    "0\U{FE0F}\U{20E3}", "1\U{FE0F}\U{20E3}", "2\U{FE0F}\U{20E3}", "3\U{FE0F}\U{20E3}",
    "4\U{FE0F}\U{20E3}", "5\U{FE0F}\U{20E3}", "6\U{FE0F}\U{20E3}", "7\U{FE0F}\U{20E3}",
    "8\U{FE0F}\U{20E3}", "9\U{FE0F}\U{20E3}"
  ]

  /** The decimal-point glyphs ⚪ ⚫ 🟤 🟣 🔵 🟢 🟡 🟠 🔴. */
  const DOTS: seq<string> := [
    "\U{26AA}", "\U{26AB}", "\U{1F7E4}", "\U{1F7E3}", "\U{1F535}",
    "\U{1F7E2}", "\U{1F7E1}", "\U{1F7E0}", "\U{1F534}"
  ]

  const NEWLINE: seq<string> := ["\r", "\n", "\r\n"]

  const SPACES: seq<string> := [" ", "\t", NEWLINE[0], NEWLINE[1], NEWLINE[2]]

  /** SPACES is the blank and the tab followed by the three line endings. */
  lemma SpacesAreBlanksAndNewlines()
    ensures SPACES == [" ", "\t"] + NEWLINE
    ensures |SPACES| == 5 && "\r\n" in SPACES
  {
  }

  /** DIGITALS has ten entries and the entry at index i is the keycap of digit i. */
  lemma DigitalsDenoteDigits()
    ensures |DIGITALS| == 10
    ensures forall i :: 0 <= i < 10 ==> DIGITALS[i] == Keycap(DigitChar(i))
  {
  }

  /** The four classification tables share no glyph, and the dots are all different. */
  lemma TablesAreDisjoint()
    ensures forall g :: g in RESERVED_SYMBOLS ==> g !in DIGITALS && g !in DOTS && g !in SPACES
    ensures forall g :: g in DIGITALS ==> g !in DOTS && g !in SPACES
    ensures forall g :: g in DOTS ==> g !in SPACES
    ensures forall i, j :: 0 <= i < j < |DOTS| ==> DOTS[i] != DOTS[j]
  {
    forall g | g in RESERVED_SYMBOLS
      ensures g !in DIGITALS && g !in DOTS && g !in SPACES
    {
      ReservedShape(g);
      ShapedOutsideOtherTables(g);
    }
    forall g | g in DIGITALS
      ensures g !in DOTS && g !in SPACES
    {
      DigitalShape(g);
      if g in DOTS {
        DotShape(g);
      }
      if g in SPACES {
        SpaceShape(g);
      }
    }
    forall g | g in DOTS
      ensures g !in SPACES
    {
      DotShape(g);
      if g in SPACES {
        SpaceShape(g);
      }
    }
    DotsDistinct();
  }

  /** The single code points among the reserved symbols. */
  const RESERVED_SINGLES: set<char> := {
    '\U{2795}', '\U{2796}', '\U{2797}', '\U{1F7F0}', '\U{1F501}', '\U{1F500}', '\U{1F9B6}',
    '\U{1F31C}', '\U{1F31B}', '\U{1F449}', '\U{1F448}', '\U{1FAF8}', '\U{1FAF7}', '\U{1F4AC}',
    '\U{274C}', '\U{2753}', '\U{2757}', '\U{2B55}', '\U{1F4DB}', '\U{1F519}'
  }

  const DOT_CHARS: set<char> := {
    '\U{26AA}', '\U{26AB}', '\U{1F7E4}', '\U{1F7E3}', '\U{1F535}',
    '\U{1F7E2}', '\U{1F7E1}', '\U{1F7E0}', '\U{1F534}'
  }

  /** A reserved symbol is one code point, an emoji with a variation selector, or #️⃣. */
  predicate ReservedShaped(g: string) {
    || (|g| == 1 && g[0] in RESERVED_SINGLES)
    || (|g| == 2 && g[1] == '\U{FE0F}')
    || (|g| == 3 && g[0] == '#')
  }

  lemma ReservedShape(g: string)
    requires g in RESERVED_SYMBOLS
    ensures ReservedShaped(g)
  {
    if g in OPERATOR_SYMBOLS {
      OperatorShape(g);
    } else if g in DELIMITER_SYMBOLS {
      DelimiterShape(g);
    } else {
      KeywordShape(g);
    }
  }

  lemma OperatorShape(g: string)
    requires g in OPERATOR_SYMBOLS
    ensures ReservedShaped(g)
  {
  }

  lemma DelimiterShape(g: string)
    requires g in DELIMITER_SYMBOLS
    ensures ReservedShaped(g)
  {
  }

  lemma KeywordShape(g: string)
    requires g in KEYWORD_SYMBOLS
    ensures ReservedShaped(g)
  {
  }

  lemma DigitalShape(g: string)
    requires g in DIGITALS
    ensures |g| == 3 && '0' <= g[0] <= '9'
  {
  }

  lemma DotShape(g: string)
    requires g in DOTS
    ensures |g| == 1 && g[0] in DOT_CHARS
  {
  }

  lemma SpaceShape(g: string)
    requires g in SPACES
    ensures || (|g| == 1 && g[0] in {' ', '\t', '\r', '\n'})
            || (|g| == 2 && g[1] == '\n')
  {
  }

  lemma ShapedOutsideOtherTables(g: string)
    requires ReservedShaped(g)
    ensures g !in DIGITALS && g !in DOTS && g !in SPACES
  {
    if g in DIGITALS {
      DigitalShape(g);
    }
    if g in DOTS {
      DotShape(g);
      SinglesAreNoDots(g[0]);
    }
    if g in SPACES {
      SpaceShape(g);
    }
  }

  lemma SinglesAreNoDots(c: char)
    requires c in RESERVED_SINGLES
    ensures c !in DOT_CHARS
  {
  }

  lemma DotsDistinct()
    ensures forall i, j :: 0 <= i < j < |DOTS| ==> DOTS[i] != DOTS[j]
  {
  }
}
