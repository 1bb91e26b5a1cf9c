/**
 The SQL text of savepoint commands: the printer of src/pragma.rs and src/transaction.rs, and
 the part of SQLite's tokenizer and grammar that reads those commands back.
 Texts are Unicode; `reserved` holds, in lower case, the words the grammar never takes as names.
 */
module SqlText {
  import opened Common
  import opened Strings

  const NUL := '\U{0}'
  const BOM := '\U{FEFF}'

  predicate IdStart(c: char) {
    'A' <= c <= 'Z' || c == '_' || 'a' <= c <= 'z' || c > '\U{7F}'
  }

  predicate IdContinue(c: char) {
    c == '$' || '0' <= c <= '9' || IdStart(c)
  }

  /** True of the empty text, as in the source. */
  predicate IsIdentifier(s: string) {
    && (s != "" ==> IdStart(s[0]))
    && forall i :: 0 < i < |s| ==> IdContinue(s[i])
  }

  function Escape(s: string, quote: char): string {
    if s == "" then ""
    else (if s[0] == quote then [quote, quote] else [s[0]]) + Escape(s[1..], quote)
  }

  function Identifier(name: string): string {
    if IsIdentifier(name) then name else "\"" + Escape(name, '"') + "\""
  }

  datatype Command = Savepoint(name: string) | Release(name: string) | RollbackTo(name: string)

  function Head(c: Command): string {
    match c
    case Savepoint(_) => "SAVEPOINT "
    case Release(_) => "RELEASE "
    case RollbackTo(_) => "ROLLBACK TO "
  }

  function Print(c: Command): string {
    Head(c) + Identifier(c.name)
  }

  /** The text buffer: every method appends. `keywords` is SQLite's own keyword list. */
  class Sql {
    var buf: string
    const keywords: set<string>

    constructor (keywords: set<string>)
      ensures buf == "" && this.keywords == keywords
    {
      buf := "";
      this.keywords := keywords;
    }

    method PushKeyword(keyword: string) returns (r: Outcome)
      modifies this
      ensures r.Ok? <==> keyword != "" && keyword in keywords
      ensures buf == if r.Ok? then old(buf) + keyword else old(buf)
    {
      if keyword == "" || keyword !in keywords { return Err; }
      buf := buf + keyword;
      r := Ok;
    }

    method PushSpace()
      modifies this
      ensures buf == old(buf) + " "
    {
      buf := buf + " ";
    }

    method PushIdentifier(s: string)
      modifies this
      ensures buf == old(buf) + Identifier(s)
    {
      var plain := CheckIdentifier(s);
      if plain { buf := buf + s; } else { WrapAndEscape(s, '"'); }
    }

    method WrapAndEscape(s: string, quote: char)
      modifies this
      ensures buf == old(buf) + [quote] + Escape(s, quote) + [quote]
    {
      buf := buf + [quote];
      var i := 0;
      while i < |s|
        invariant 0 <= i <= |s|
        invariant buf + Escape(s[i..], quote) == old(buf) + [quote] + Escape(s, quote)
      {
        if s[i] == quote { buf := buf + [s[i]]; }
        buf := buf + [s[i]];
        assert s[i..][1..] == s[i + 1..];
        i := i + 1;
      }
      buf := buf + [quote];
    }
  }

  method CheckIdentifier(s: string) returns (r: bool)
    ensures r == IsIdentifier(s)
  {
    for i := 0 to |s|
      invariant i > 0 ==> IdStart(s[0])
      invariant forall k :: 0 < k < i ==> IdContinue(s[k])
    {
      if i == 0 {
        if !IdStart(s[i]) { return false; }
      } else if !IdContinue(s[i]) {
        return false;
      }
    }
    r := true;
  }

  /** The head of a command as the builder puts it together. */
  function Built(keyword: string, to: bool): string {
    keyword + " " + if to then "TO" + " " else ""
  }

  lemma BuiltHeads(name: string)
    ensures Built("SAVEPOINT", false) == Head(Savepoint(name)) && Built("RELEASE", false) == Head(Release(name))
    ensures Built("ROLLBACK", true) == Head(RollbackTo(name))
  {
  }

  /** The command builder of the guards; the keyword check refuses only if SQLite does not
      know its own words. */
  method Cmd(keyword: string, to: bool, name: string, keywords: set<string>) returns (r: Option<string>)
    ensures {"SAVEPOINT", "RELEASE", "ROLLBACK", "TO"} <= keywords ==>
              && (keyword == "SAVEPOINT" && !to ==> r == Some(Print(Savepoint(name))))
              && (keyword == "RELEASE" && !to ==> r == Some(Print(Release(name))))
              && (keyword == "ROLLBACK" && to ==> r == Some(Print(RollbackTo(name))))
  {
    var sql := new Sql(keywords);
    var pushed := sql.PushKeyword(keyword);
    if pushed.Err? { return None; }
    sql.PushSpace();
    if to {
      pushed := sql.PushKeyword("TO");
      if pushed.Err? { return None; }
      sql.PushSpace();
    }
    assert sql.buf == Built(keyword, to);
    sql.PushIdentifier(name);
    BuiltHeads(name);
    r := Some(sql.buf);
  }

  // ---------------------------------------------------------------- reading

  datatype Token = Word(text: string) | Quoted(text: string)

  function WordLength(s: string): (n: nat)
    ensures n <= |s|
  {
    if s != "" && IdContinue(s[0]) then 1 + WordLength(s[1..]) else 0
  }

  /** Reads up to the closing quote: the decoded name and the number of characters used. */
  function ScanQuoted(s: string): (r: Option<(string, nat)>)
    ensures r.Some? ==> r.value.1 <= |s| && |r.value.0| < r.value.1
  {
    if s == "" || s[0] == NUL then None
    else if s[0] == '"' then
      if |s| > 1 && s[1] == '"' then
        match ScanQuoted(s[2..])
        case None => None
        case Some((text, used)) => Some(("\"" + text, used + 2))
      else Some(("", 1))
    else
      match ScanQuoted(s[1..])
      case None => None
      case Some((text, used)) => Some(([s[0]] + text, used + 1))
  }

  /** Tokens of a text: NUL ends it, a byte-order mark at the start of a token is a space. */
  function Lex(s: string): Option<seq<Token>>
    decreases |s|
  {
    if s == "" || s[0] == NUL then Some([])
    else if s[0] == ' ' || s[0] == BOM then Lex(s[1..])
    else if s[0] == '"' then
      match ScanQuoted(s[1..])
      case None => None
      case Some((text, used)) => Prepend(Quoted(text), Lex(s[1 + used..]))
    else if IdStart(s[0]) then
      var n := 1 + WordLength(s[1..]);
      Prepend(Word(s[..n]), Lex(s[n..]))
    else None
  }

  function Prepend(t: Token, rest: Option<seq<Token>>): Option<seq<Token>> {
    if rest.None? then None else Some([t] + rest.value)
  }

  predicate Is(t: Token, word: string) {
    t.Word? && Lower(t.text) == word
  }

  predicate IsName(t: Token, reserved: set<string>) {
    t.Quoted? || Lower(t.text) !in reserved
  }

  /** A name after RELEASE or ROLLBACK TO, where the word SAVEPOINT may come first. */
  function ReadName(ts: seq<Token>, reserved: set<string>): Option<string> {
    if |ts| == 1 && !Is(ts[0], "savepoint") && IsName(ts[0], reserved) then Some(ts[0].text)
    else if |ts| == 2 && Is(ts[0], "savepoint") && IsName(ts[1], reserved) then Some(ts[1].text)
    else None
  }

  function ReadTokens(ts: seq<Token>, reserved: set<string>): Option<Command> {
    if |ts| == 2 && Is(ts[0], "savepoint") && IsName(ts[1], reserved) then Some(Savepoint(ts[1].text))
    else if |ts| >= 1 && Is(ts[0], "release") then
      var name := ReadName(ts[1..], reserved);
      if name.Some? then Some(Release(name.value)) else None
    else if |ts| >= 2 && Is(ts[0], "rollback") && Is(ts[1], "to") then
      var name := ReadName(ts[2..], reserved);
      if name.Some? then Some(RollbackTo(name.value)) else None
    else None
  }

  function Read(sql: string, reserved: set<string>): Option<Command> {
    var ts := Lex(sql);
    if ts.None? then None else ReadTokens(ts.value, reserved)
  }

  // ---------------------------------------------------------------- printing then reading

  lemma {:induction false} WordLengthAll(w: string, rest: string)
    requires forall i :: 0 <= i < |w| ==> IdContinue(w[i])
    requires rest != "" ==> !IdContinue(rest[0])
    ensures WordLength(w + rest) == |w|
  {
    if w == "" {
      assert w + rest == rest;
    } else {
      WordLengthAll(w[1..], rest);
      assert (w + rest)[1..] == w[1..] + rest;
    }
  }

  lemma LexWord(w: string, rest: string)
    requires w != "" && IsIdentifier(w) && w[0] != BOM
    requires rest != "" ==> !IdContinue(rest[0])
    ensures Lex(w + rest) == Prepend(Word(w), Lex(rest))
  {
    var s := w + rest;
    WordLengthAll(w[1..], rest);
    assert s[1..] == w[1..] + rest;
    assert s[..|w|] == w && s[|w|..] == rest;
  }

  /** Scanning an escaped name gives the name back, unless a NUL cuts the text short. */
  lemma {:induction false} ScanEscaped(name: string)
    ensures ScanQuoted(Escape(name, '"') + "\"") ==
              if NUL in name then None else Some((name, |Escape(name, '"')| + 1))
  {
    var s := Escape(name, '"') + "\"";
    if name != "" {
      ScanEscaped(name[1..]);
      var tail := Escape(name[1..], '"') + "\"";
      assert name == [name[0]] + name[1..];
      if name[0] == '"' {
        assert s[2..] == tail;
      } else {
        assert s[1..] == tail;
      }
    }
  }

  function Strip(s: string): string {
    if s != "" && s[0] == BOM then Strip(s[1..]) else s
  }

  /** The name SQLite records: a bare name loses its leading byte-order marks. */
  function Effective(name: string): string {
    if IsIdentifier(name) then Strip(name) else name
  }

  lemma {:induction false} LexStrip(s: string)
    requires forall i :: 0 <= i < |s| ==> IdContinue(s[i])
    ensures forall i :: 0 <= i < |Strip(s)| ==> IdContinue(Strip(s)[i])
    ensures Lex(s) == Lex(Strip(s)) && (Strip(s) != "" ==> Strip(s)[0] != BOM)
  {
    if s != "" && s[0] == BOM { LexStrip(s[1..]); }
  }

  lemma LexIdentifier(name: string)
    ensures var n := Effective(name);
            Lex(Identifier(name)) ==
              if !IsIdentifier(name) then (if NUL in name then None else Some([Quoted(name)]))
              else if n == "" then Some([])
              else if IdStart(n[0]) then Some([Word(n)])
              else None
  {
    var s, n := Identifier(name), Effective(name);
    if !IsIdentifier(name) {
      ScanEscaped(name);
      assert s[1..] == Escape(name, '"') + "\"";
      if NUL !in name {
        assert s[1 + |Escape(name, '"')| + 1..] == "";
        assert [Quoted(name)] + [] == [Quoted(name)];
      }
    } else {
      LexStrip(name);
      if n != "" && IdStart(n[0]) {
        LexWord(n, "");
        assert n + "" == n;
        assert [Word(n)] + [] == [Word(n)];
      }
    }
  }

  lemma LexAfterKeyword(keyword: string, rest: string)
    requires keyword != "" && IsIdentifier(keyword) && keyword[0] != BOM
    ensures Lex(keyword + " " + rest) == Prepend(Word(keyword), Lex(rest))
  {
    LexWord(keyword, " " + rest);
    assert keyword + (" " + rest) == keyword + " " + rest;
    assert (" " + rest)[1..] == rest;
  }

  lemma Keywords()
    ensures IsIdentifier("SAVEPOINT") && IsIdentifier("RELEASE") && IsIdentifier("ROLLBACK") && IsIdentifier("TO")
  {
  }

  lemma LexRollback(id: string)
    ensures Lex("ROLLBACK TO " + id) == Prepend(Word("ROLLBACK"), Prepend(Word("TO"), Lex(id)))
  {
    Keywords();
    var to := "TO" + " " + id;
    LexAfterKeyword("TO", id);
    LexAfterKeyword("ROLLBACK", to);
    assert "ROLLBACK" + " " + to == "ROLLBACK TO " + id;
  }

  lemma LexPrinted(c: Command)
    ensures Lex(Print(c)) ==
      match c
      case Savepoint(_) => Prepend(Word("SAVEPOINT"), Lex(Identifier(c.name)))
      case Release(_) => Prepend(Word("RELEASE"), Lex(Identifier(c.name)))
      case RollbackTo(_) => Prepend(Word("ROLLBACK"), Prepend(Word("TO"), Lex(Identifier(c.name))))
  {
    Keywords();
    var id := Identifier(c.name);
    if c.RollbackTo? {
      LexRollback(id);
    } else {
      var keyword := if c.Savepoint? then "SAVEPOINT" else "RELEASE";
      assert Head(c) == keyword + " ";
      LexAfterKeyword(keyword, id);
    }
  }

  function KeywordTokens(c: Command): seq<Token> {
    match c
    case Savepoint(_) => [Word("SAVEPOINT")]
    case Release(_) => [Word("RELEASE")]
    case RollbackTo(_) => [Word("ROLLBACK"), Word("TO")]
  }

  function NameToken(name: string): Token {
    if IsIdentifier(name) then Word(Effective(name)) else Quoted(name)
  }

  /** A printed command is its keywords and exactly one token that decodes to the name, exactly
      when the name is free of NUL and, if left bare, has a word behind its byte-order marks. */
  lemma OneNameToken(c: Command)
    ensures Lex(Print(c)) == Some(KeywordTokens(c) + [NameToken(c.name)]) <==>
              NUL !in c.name && (IsIdentifier(c.name) ==> Effective(c.name) != "" && IdStart(Effective(c.name)[0]))
  {
    LexPrinted(c);
    LexIdentifier(c.name);
    var id := Lex(Identifier(c.name));
    if id.Some? {
      assert [Word("ROLLBACK")] + ([Word("TO")] + id.value) == [Word("ROLLBACK"), Word("TO")] + id.value;
      assert Lex(Print(c)) == Some(KeywordTokens(c) + id.value);
      Cancel(KeywordTokens(c), id.value, [NameToken(c.name)]);
    }
    IdentifierHasNoNul(c.name);
  }

  lemma Cancel(a: seq<Token>, b: seq<Token>, c: seq<Token>)
    ensures a + b == a + c <==> b == c
  {
    assert (a + b)[|a|..] == b && (a + c)[|a|..] == c;
  }

  lemma IdentifierHasNoNul(name: string)
    ensures IsIdentifier(name) ==> NUL !in name
  {
  }

  /** What the printed command says to SQLite: the command on the recorded name, or no SQL at
      all. A name that is empty, holds a NUL, or is a bare reserved word cannot be used; the bare
      word SAVEPOINT can be opened, but not released or rolled back to. */
  function Recover(c: Command, reserved: set<string>): Option<Command> {
    var n := Effective(c.name);
    if n == "" || NUL in n then None
    else if IsIdentifier(c.name) && (!IdStart(n[0]) || Lower(n) in reserved) then None
    else if IsIdentifier(c.name) && !c.Savepoint? && Lower(n) == "savepoint" then None
    else Some(c.(name := n))
  }

  lemma LowerWords()
    ensures Lower("SAVEPOINT") == "savepoint" && Lower("RELEASE") == "release"
    ensures Lower("ROLLBACK") == "rollback" && Lower("TO") == "to"
  {
  }

  /** Printing then reading, for every command and every name. */
  lemma PrintThenRead(c: Command, reserved: set<string>)
    ensures Read(Print(c), reserved) == Recover(c, reserved)
  {
    LexPrinted(c);
    LexIdentifier(c.name);
    if IsIdentifier(c.name) { LexStrip(c.name); }
    var ts := Lex(Identifier(c.name));
    if ts.Some? { ReadPrinted(c, ts.value, reserved); }
  }

  /** The name comes back unchanged exactly when it is non-empty, free of NUL, and, if the
      printer leaves it bare, neither starts with a byte-order mark nor is a word the grammar
      takes for itself at that place. */
  lemma ReadsBackExactly(c: Command, reserved: set<string>)
    ensures Read(Print(c), reserved) == Some(c) <==>
              && c.name != "" && NUL !in c.name
              && (IsIdentifier(c.name) ==> c.name[0] != BOM && Lower(c.name) !in reserved &&
                                           (c.Savepoint? || Lower(c.name) != "savepoint"))
  {
    PrintThenRead(c, reserved);
    if IsIdentifier(c.name) { StripShorter(c.name); }
  }

  lemma {:induction false} StripShorter(s: string)
    ensures |Strip(s)| <= |s|
    ensures Strip(s) == s <==> s == "" || s[0] != BOM
    ensures Strip(s) != s ==> |Strip(s)| < |s|
  {
    if s != "" && s[0] == BOM { StripShorter(s[1..]); }
  }

  lemma ReadPrinted(c: Command, ts: seq<Token>, reserved: set<string>)
    ensures match c
            case Savepoint(_) =>
              ReadTokens([Word("SAVEPOINT")] + ts, reserved) ==
                if |ts| == 1 && IsName(ts[0], reserved) then Some(Savepoint(ts[0].text)) else None
            case Release(_) =>
              ReadTokens([Word("RELEASE")] + ts, reserved) ==
                var name := ReadName(ts, reserved); if name.Some? then Some(Release(name.value)) else None
            case RollbackTo(_) =>
              ReadTokens([Word("ROLLBACK")] + ([Word("TO")] + ts), reserved) ==
                var name := ReadName(ts, reserved); if name.Some? then Some(RollbackTo(name.value)) else None
  {
    LowerWords();
    match c
    case Savepoint(_) => assert ([Word("SAVEPOINT")] + ts)[0] == Word("SAVEPOINT");
    case Release(_) => assert ([Word("RELEASE")] + ts)[1..] == ts;
    case RollbackTo(_) =>
      var all := [Word("ROLLBACK")] + ([Word("TO")] + ts);
      assert all[0] == Word("ROLLBACK") && all[1] == Word("TO") && all[2..] == ts;
  }

  lemma {:induction false} EscapeInjective(a: string, b: string, quote: char)
    requires Escape(a, quote) == Escape(b, quote)
    ensures a == b
  {
    if a != "" && b != "" {
      var ea, eb := Escape(a, quote), Escape(b, quote);
      assert ea[0] == a[0] && eb[0] == b[0];
      var n := if a[0] == quote then 2 else 1;
      assert ea[n..] == Escape(a[1..], quote) && eb[n..] == Escape(b[1..], quote);
      EscapeInjective(a[1..], b[1..], quote);
      assert a == [a[0]] + a[1..] && b == [b[0]] + b[1..];
    }
  }

  lemma HeadsApart(a: Command, b: Command)
    requires Print(a) == Print(b)
    ensures Head(a) == Head(b) && (a.Savepoint? <==> b.Savepoint?) && (a.Release? <==> b.Release?)
  {
    assert Print(a)[0] == Head(a)[0] && Print(a)[1] == Head(a)[1];
    assert Print(b)[0] == Head(b)[0] && Print(b)[1] == Head(b)[1];
  }

  lemma IdentifierInjective(x: string, y: string)
    requires Identifier(x) == Identifier(y)
    ensures x == y
  {
    if !IsIdentifier(x) && !IsIdentifier(y) {
      var ix, iy := Identifier(x), Identifier(y);
      assert ix[1..|ix| - 1] == Escape(x, '"') && iy[1..|iy| - 1] == Escape(y, '"');
      EscapeInjective(x, y, '"');
    }
  }

  /** Distinct commands always print as distinct texts, readable or not. */
  lemma PrintInjective(a: Command, b: Command)
    requires Print(a) == Print(b)
    ensures a == b
  {
    HeadsApart(a, b);
    assert Print(a)[|Head(a)|..] == Identifier(a.name) && Print(b)[|Head(b)|..] == Identifier(b.name);
    IdentifierInjective(a.name, b.name);
  }
}
