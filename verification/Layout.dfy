/** Session identifiers (UUID text, section 4 of RFC 9562) and the object keys of one session. */
module Layout {
  import opened Common
  import opened Strings
  import opened CloudUri

  // ---------------------------------------------------------------- session identifiers

  predicate IsHex(c: char) {
    IsDigit(c) || 'a' <= c <= 'f' || 'A' <= c <= 'F'
  }

  predicate HyphenAt(i: int) {
    i == 8 || i == 13 || i == 18 || i == 23
  }

  predicate IsUuid(s: string) {
    && |s| == 36
    && (forall i :: 0 <= i < |s| ==> if HyphenAt(i) then s[i] == '-' else IsHex(s[i]))
    && (exists i :: 0 <= i < |s| && !HyphenAt(i) && s[i] != '0')
  }

  /** Upper case is accepted and stored in lower case; the nil UUID is refused. */
  function SessionId(s: string): Option<string> {
    if |s| == 36 && IsUuid(Lower(s)) then Some(Lower(s)) else None
  }

  lemma LowerHex(s: string, i: nat)
    requires i < |s|
    ensures IsHex(Lower(s)[i]) <==> IsHex(s[i])
    ensures Lower(s)[i] == '-' <==> s[i] == '-'
    ensures Lower(s)[i] == '0' <==> s[i] == '0'
  {
  }

  /** Accepted exactly when the text is a non-nil UUID in any letter case; letter case never matters. */
  lemma SessionIdAccepts(s: string)
    ensures SessionId(s) == if IsUuid(s) then Some(Lower(s)) else None
    ensures SessionId(s).Some? ==> SessionId(SessionId(s).value) == SessionId(s)
  {
    forall i | 0 <= i < |s|
      ensures IsHex(Lower(s)[i]) <==> IsHex(s[i])
      ensures Lower(s)[i] == '-' <==> s[i] == '-'
      ensures Lower(s)[i] == '0' <==> s[i] == '0'
    {
      LowerHex(s, i);
    }
    if IsUuid(s) {
      var i :| 0 <= i < |s| && !HyphenAt(i) && s[i] != '0';
      assert Lower(s)[i] != '0';
    }
    if IsUuid(Lower(s)) {
      var i :| 0 <= i < |s| && !HyphenAt(i) && Lower(s)[i] != '0';
      assert s[i] != '0';
    }
    assert Lower(Lower(s)) == Lower(s);
  }

  /** Eight, four, four, four and twelve hexadecimal digits, not all zero. */
  predicate UuidOf(s: string, a: string, b: string, c: string, d: string, e: string) {
    && s == a + "-" + b + "-" + c + "-" + d + "-" + e
    && |a| == 8 && |b| == 4 && |c| == 4 && |d| == 4 && |e| == 12
    && var digits := a + b + c + d + e;
       (forall i :: 0 <= i < |digits| ==> IsHex(digits[i])) && exists i :: 0 <= i < |digits| && digits[i] != '0'
  }

  /** Where the digit at `i` of the thirty-two is in the text. */
  function DigitPlace(i: nat): nat {
    if i < 8 then i else if i < 12 then i + 1 else if i < 16 then i + 2 else if i < 20 then i + 3 else i + 4
  }

  function DigitOf(i: nat): nat
    requires !HyphenAt(i)
  {
    if i < 8 then i else if i < 13 then i - 1 else if i < 18 then i - 2 else if i < 23 then i - 3 else i - 4
  }

  lemma DigitsIn(s: string, a: string, b: string, c: string, d: string, e: string)
    requires s == a + "-" + b + "-" + c + "-" + d + "-" + e
    requires |a| == 8 && |b| == 4 && |c| == 4 && |d| == 4 && |e| == 12
    ensures |s| == 36 && forall i :: 0 <= i < 32 ==> s[DigitPlace(i)] == (a + b + c + d + e)[i]
    ensures forall i :: 0 <= i < 36 && HyphenAt(i) ==> s[i] == '-'
  {
  }

  /** The texts accepted are those of five such groups, joined by hyphens. */
  lemma UuidIff(s: string)
    ensures IsUuid(s) <==> exists a, b, c, d, e :: UuidOf(s, a, b, c, d, e)
  {
    if |s| == 36 && (forall i :: 0 <= i < 36 && HyphenAt(i) ==> s[i] == '-') {
      var a, b, c, d, e := s[..8], s[9..13], s[14..18], s[19..23], s[24..];
      assert s == a + "-" + b + "-" + c + "-" + d + "-" + e;
      UuidGroups(s, a, b, c, d, e);
    }
    if a, b, c, d, e :| UuidOf(s, a, b, c, d, e) { UuidGroups(s, a, b, c, d, e); }
  }

  lemma UuidGroups(s: string, a: string, b: string, c: string, d: string, e: string)
    requires s == a + "-" + b + "-" + c + "-" + d + "-" + e
    requires |a| == 8 && |b| == 4 && |c| == 4 && |d| == 4 && |e| == 12
    ensures IsUuid(s) <==> UuidOf(s, a, b, c, d, e)
  {
    DigitsIn(s, a, b, c, d, e);
    var digits := a + b + c + d + e;
    if IsUuid(s) {
      var i :| 0 <= i < |s| && !HyphenAt(i) && s[i] != '0';
      assert DigitPlace(DigitOf(i)) == i && digits[DigitOf(i)] == s[i];
      forall k | 0 <= k < 32
        ensures IsHex(digits[k])
      {
        assert !HyphenAt(DigitPlace(k));
      }
    }
    if UuidOf(s, a, b, c, d, e) {
      var i :| 0 <= i < |digits| && digits[i] != '0';
      assert !HyphenAt(DigitPlace(i)) && s[DigitPlace(i)] != '0';
      forall k | 0 <= k < 36 && !HyphenAt(k)
        ensures IsHex(s[k])
      {
        assert DigitPlace(DigitOf(k)) == k && digits[DigitOf(k)] == s[k];
      }
    }
  }

  lemma UuidIsSegment(s: string)
    requires IsUuid(s)
    ensures '/' !in s && !BadSegment(s) && !BadSegment(s + ".bcv") && '/' !in s + ".bcv"
  {
    forall i | 0 <= i < |s|
      ensures s[i] != '/'
    {
      assert if HyphenAt(i) then s[i] == '-' else IsHex(s[i]);
    }
  }

  // ---------------------------------------------------------------- keys

  datatype Kind = Blocks | Attempt | Checkpoint | History | Head | Manifest | Guard

  datatype Keys = Keys(
    blocks: string, attempt: string, checkpoint: string, history: string,
    head: string, manifest: string, guard: string)

  function Key(base: string, suffix: string): string {
    if base == "" then suffix else base + "/" + suffix
  }

  /** The keys of a session below an accepted prefix. */
  function KeysOf(prefix: string, id: string): Option<Keys> {
    var normal := NormalizePrefix(prefix);
    if normal.None? then None
    else
      var base := PrefixBase(normal.value);
      var root := Key(base, "bcv-session/v1");
      Some(Keys(Key(base, "blocks") + "/", root + "/attempt/" + id + "/", root + "/checkpoint/" + id + "/",
                root + "/history/" + id + "/", root + "/head/" + id + ".bcv", Key(base, "manifest.bcv"),
                root + "/guard.bcv"))
  }

  function Get(keys: Keys, kind: Kind): string {
    match kind
    case Blocks => keys.blocks
    case Attempt => keys.attempt
    case Checkpoint => keys.checkpoint
    case History => keys.history
    case Head => keys.head
    case Manifest => keys.manifest
    case Guard => keys.guard
  }

  /** The part of a key below the prefix. */
  function Suffix(kind: Kind, id: string): string {
    match kind
    case Blocks => "blocks" + "/"
    case Attempt => "bcv-session/v1" + "/attempt/" + id + "/"
    case Checkpoint => "bcv-session/v1" + "/checkpoint/" + id + "/"
    case History => "bcv-session/v1" + "/history/" + id + "/"
    case Head => "bcv-session/v1" + "/head/" + id + ".bcv"
    case Manifest => "manifest.bcv"
    case Guard => "bcv-session/v1" + "/guard.bcv"
  }

  lemma KeyAppend(base: string, a: string, b: string)
    ensures Key(base, a) + b == Key(base, a + b)
  {
    assert base + "/" + a + b == base + "/" + (a + b);
  }

  lemma KeysAreSuffixes(prefix: string, id: string, kind: Kind)
    requires KeysOf(prefix, id).Some?
    ensures Get(KeysOf(prefix, id).value, kind) == Key(PrefixBase(NormalizePrefix(prefix).value), Suffix(kind, id))
  {
    var base := PrefixBase(NormalizePrefix(prefix).value);
    var root := "bcv-session/v1";
    match kind {
      case Blocks => KeyAppend(base, "blocks", "/");
      case Attempt => Appended(base, root, "/attempt/", id, "/");
      case Checkpoint => Appended(base, root, "/checkpoint/", id, "/");
      case History => Appended(base, root, "/history/", id, "/");
      case Head => Appended(base, root, "/head/", id, ".bcv");
      case Manifest =>
      case Guard => KeyAppend(base, root, "/guard.bcv");
    }
  }

  lemma Appended(base: string, a: string, b: string, c: string, d: string)
    ensures Key(base, a) + b + c + d == Key(base, a + b + c + d)
  {
    KeyAppend(base, a, b);
    KeyAppend(base, a + b, c);
    KeyAppend(base, a + b + c, d);
  }

  // ---------------------------------------------------------------- no key is a prefix of another

  predicate Apart(a: string, b: string) {
    !(a <= b) && !(b <= a)
  }

  lemma DifferAt(a: string, b: string, i: nat)
    requires i < |a| && i < |b| && a[i] != b[i]
    ensures Apart(a, b)
  {
  }

  lemma PrefixCancels(p: string, a: string, b: string)
    ensures p + a <= p + b <==> a <= b
  {
    assert a == (p + a)[|p|..] && b == (p + b)[|p|..];
    if a <= b { assert b == a + b[|a|..] && p + b == p + a + b[|a|..]; }
  }

  lemma ApartBelow(base: string, a: string, b: string)
    requires Apart(a, b)
    ensures Apart(Key(base, a), Key(base, b))
  {
    PrefixCancels(base + "/", a, b);
    PrefixCancels(base + "/", b, a);
  }

  predicate OfSession(kind: Kind) {
    kind in {Attempt, Checkpoint, History, Head}
  }

  predicate BelowRoot(kind: Kind) {
    OfSession(kind) || kind == Guard
  }

  /** The two characters that tell the kinds apart: at 0 and 1, or at 15 and 16 below the root. */
  function Marks(kind: Kind): (char, char) {
    match kind
    case Blocks => ('b', 'l')
    case Attempt => ('a', 't')
    case Checkpoint => ('c', 'h')
    case History => ('h', 'i')
    case Head => ('h', 'e')
    case Manifest => ('m', 'a')
    case Guard => ('g', 'u')
  }

  lemma Marked(kind: Kind, id: string)
    ensures var s := Suffix(kind, id);
            if BelowRoot(kind) then |s| > 16 && s[0] == 'b' && s[1] == 'c' && (s[15], s[16]) == Marks(kind)
            else |s| > 1 && (s[0], s[1]) == Marks(kind)
  {
  }

  lemma KindsApart(k: Kind, id: string, l: Kind, other: string)
    requires k != l
    ensures Apart(Suffix(k, id), Suffix(l, other))
  {
    Marked(k, id);
    Marked(l, other);
    var a, b := Suffix(k, id), Suffix(l, other);
    if BelowRoot(k) && BelowRoot(l) {
      DifferAt(a, b, if Marks(k).0 != Marks(l).0 then 15 else 16);
    } else {
      DifferAt(a, b, if a[0] != b[0] then 0 else 1);
    }
  }

  /** Where the identifier sits in a session key. */
  function Lead(kind: Kind): string {
    "bcv-session/v1" + (match kind
                        case Attempt => "/attempt/"
                        case Checkpoint => "/checkpoint/"
                        case History => "/history/"
                        case _ => "/head/")
  }

  lemma SessionsApart(kind: Kind, id: string, other: string)
    requires OfSession(kind) && id != other && |id| == |other|
    ensures Apart(Suffix(kind, id), Suffix(kind, other))
  {
    var i := Difference(id, other);
    var lead, tail := Lead(kind), if kind == Head then ".bcv" else "/";
    assert Suffix(kind, id) == lead + id + tail && Suffix(kind, other) == lead + other + tail;
    LeadsApart(lead, id, other, tail, i);
  }

  lemma LeadsApart(lead: string, id: string, other: string, tail: string, i: nat)
    requires i < |id| && |id| == |other| && id[i] != other[i]
    ensures Apart(lead + id + tail, lead + other + tail)
  {
    DifferAt(lead + id + tail, lead + other + tail, |lead| + i);
  }

  lemma Difference(a: string, b: string) returns (i: nat)
    requires a != b && |a| == |b|
    ensures i < |a| && a[i] != b[i]
  {
    i :| 0 <= i < |a| && a[i] != b[i];
  }

  /** The seven keys of a session are prefix-free, and so are the keys of different sessions. */
  lemma KeysApart(prefix: string, id: string, k: Kind, other: string, l: Kind)
    requires ValidPrefix(prefix) && IsUuid(id) && IsUuid(other)
    requires k != l || (OfSession(k) && id != other)
    ensures KeysOf(prefix, id).Some? && KeysOf(prefix, other).Some?
    ensures Apart(Get(KeysOf(prefix, id).value, k), Get(KeysOf(prefix, other).value, l))
  {
    KeysAreSuffixes(prefix, id, k);
    KeysAreSuffixes(prefix, other, l);
    if k != l { KindsApart(k, id, l, other); } else { SessionsApart(k, id, other); }
    ApartBelow(PrefixBase(NormalizePrefix(prefix).value), Suffix(k, id), Suffix(l, other));
  }

  // ---------------------------------------------------------------- trailing slash

  lemma StartsWithSlash(s: string)
    requires s != ""
    ensures StartsWith(s, "/") <==> s[0] == '/'
  {
    if s[0] == '/' { assert s == "/" + s[1..]; }
  }

  lemma SlashedBase(prefix: string)
    ensures EndsWith(prefix + "/", "/") && PrefixBase(prefix + "/") == prefix
  {
    var slashed := prefix + "/";
    assert slashed[|slashed| - 1..] == "/" && slashed[..|slashed| - 1] == prefix;
  }

  lemma SlashedStart(prefix: string)
    requires prefix != ""
    ensures StartsWith(prefix + "/", "/") <==> StartsWith(prefix, "/")
  {
    StartsWithSlash(prefix);
    StartsWithSlash(prefix + "/");
    assert (prefix + "/")[0] == prefix[0];
  }

  /** A lone slash and a second trailing slash are refused. */
  lemma SlashRefused(prefix: string, id: string)
    requires prefix == "" || EndsWith(prefix, "/")
    ensures KeysOf(prefix + "/", id).None?
  {
    SlashedBase(prefix);
    if prefix == "" { StartsWithSlash(prefix + "/"); }
  }

  /**
   One more trailing slash makes no difference exactly when the prefix is refused anyway, or is not
   empty and has no trailing slash yet.
   */
  lemma TrailingSlash(prefix: string, id: string)
    ensures KeysOf(prefix + "/", id) == KeysOf(prefix, id) <==>
              !ValidPrefix(prefix) || (prefix != "" && !EndsWith(prefix, "/"))
  {
    if prefix == "" || EndsWith(prefix, "/") {
      SlashRefused(prefix, id);
    } else {
      SlashedBase(prefix);
      SlashedStart(prefix);
      assert PrefixBase(prefix) == prefix;
    }
  }

  /** The smallest difference: the empty prefix is accepted and a lone slash is not. */
  lemma EmptyPrefixSlashed(id: string)
    ensures KeysOf("", id).Some? && KeysOf("/", id).None?
  {
    SlashRefused("", id);
    assert "" + "/" == "/";
  }

  // ---------------------------------------------------------------- segments

  /** A key without the slash that marks it as a prefix of other keys. */
  function Bare(key: string): string {
    PrefixBase(key)
  }

  predicate GoodSegments(segments: seq<string>) {
    forall i :: 0 <= i < |segments| ==> !BadSegment(segments[i])
  }

  lemma {:induction false} JoinAppend(a: seq<string>, b: seq<string>, c: char)
    requires a != [] && b != []
    ensures Join(a + b, c) == Join(a, c) + [c] + Join(b, c)
  {
    if |a| == 1 {
      assert a + b == [a[0]] + b;
      JoinCons(a[0], b, c);
    } else {
      assert a + b == [a[0]] + (a[1..] + b);
      JoinCons(a[0], a[1..] + b, c);
      JoinAppend(a[1..], b, c);
    }
  }

  lemma SplitAppend(a: string, c: char, b: string)
    ensures Split(a + [c] + b, c) == Split(a, c) + Split(b, c)
  {
    JoinSplit(a, c);
    JoinSplit(b, c);
    JoinAppend(Split(a, c), Split(b, c), c);
    SplitJoin(Split(a, c) + Split(b, c), c);
  }

  function Segments(kind: Kind, id: string): seq<string> {
    match kind
    case Blocks => ["blocks"]
    case Attempt => ["bcv-session", "v1", "attempt", id]
    case Checkpoint => ["bcv-session", "v1", "checkpoint", id]
    case History => ["bcv-session", "v1", "history", id]
    case Head => ["bcv-session", "v1", "head", id + ".bcv"]
    case Manifest => ["manifest.bcv"]
    case Guard => ["bcv-session", "v1", "guard.bcv"]
  }

  lemma JoinSegments(a: string, b: string, c: string, d: string)
    ensures Join([a, b, c, d], '/') == a + "/" + (b + "/" + (c + "/" + d))
    ensures Join([a, b, c], '/') == a + "/" + (b + "/" + c)
    ensures Join([a], '/') == a
  {
    assert [a, b, c, d] == [a] + [b, c, d] && [b, c, d] == [b] + [c, d] && [c, d] == [c] + [d];
    assert [a, b, c] == [a] + [b, c] && [b, c] == [b] + [c];
    JoinCons(a, [b, c, d], '/');
    JoinCons(b, [c, d], '/');
    JoinCons(c, [d], '/');
    JoinCons(a, [b, c], '/');
    JoinCons(b, [c], '/');
  }

  /** A session suffix written out with its segments. */
  lemma RootSplit(word: string, rest: string)
    ensures "bcv-session/v1" + ("/" + word + "/") + rest == "bcv-session" + "/" + ("v1" + "/" + (word + "/" + rest))
    ensures "bcv-session/v1" + ("/" + rest) == "bcv-session" + "/" + ("v1" + "/" + rest)
  {
    assert "bcv-session/v1" == "bcv-session" + "/" + "v1";
  }

  lemma SlashedWords()
    ensures "/attempt/" == "/" + "attempt" + "/" && "/checkpoint/" == "/" + "checkpoint" + "/"
    ensures "/history/" == "/" + "history" + "/" && "/head/" == "/" + "head" + "/" && "/guard.bcv" == "/" + "guard.bcv"
  {
  }

  lemma BareSlashed(s: string)
    ensures Bare(s + "/") == s
  {
    var t := s + "/";
    assert t[|t| - 1..] == "/" && t[..|t| - 1] == s;
  }

  lemma BareFile(s: string)
    ensures Bare(s + ".bcv") == s + ".bcv"
  {
    var t := s + ".bcv";
    assert t[|t| - 1..] == "v";
  }

  lemma SuffixSegments(kind: Kind, id: string)
    ensures Bare(Suffix(kind, id)) == Join(Segments(kind, id), '/')
  {
    SlashedWords();
    match kind {
      case Blocks => BareSlashed("blocks"); JoinSegments("blocks", "", "", "");
      case Attempt => SlashedSegments("attempt", id);
      case Checkpoint => SlashedSegments("checkpoint", id);
      case History => SlashedSegments("history", id);
      case Head =>
        var lead := "bcv-session/v1" + "/head/" + id;
        BareFile(lead);
        assert lead + ".bcv" == "bcv-session/v1" + "/head/" + (id + ".bcv");
        RootSplit("head", id + ".bcv");
        JoinSegments("bcv-session", "v1", "head", id + ".bcv");
      case Manifest =>
        assert "manifest.bcv" == "manifest" + ".bcv";
        BareFile("manifest");
        JoinSegments("manifest.bcv", "", "", "");
      case Guard =>
        assert "/guard.bcv" == "/guard" + ".bcv";
        assert "bcv-session/v1" + ("/guard" + ".bcv") == "bcv-session/v1" + "/guard" + ".bcv";
        BareFile("bcv-session/v1" + "/guard");
        RootSplit("", "guard.bcv");
        JoinSegments("bcv-session", "v1", "guard.bcv", "");
    }
  }

  lemma SlashedSegments(word: string, id: string)
    ensures Bare("bcv-session/v1" + ("/" + word + "/") + id + "/") == Join(["bcv-session", "v1", word, id], '/')
  {
    BareSlashed("bcv-session/v1" + ("/" + word + "/") + id);
    RootSplit(word, id);
    JoinSegments("bcv-session", "v1", word, id);
  }

  lemma WordsAreGood()
    ensures forall w | w in ["blocks", "bcv-session", "v1", "attempt", "checkpoint", "history", "head",
                              "manifest.bcv", "guard.bcv"] ::
              !BadSegment(w) && '/' !in w
  {
  }

  lemma SegmentsAreGood(kind: Kind, id: string)
    requires IsUuid(id)
    ensures GoodSegments(Segments(kind, id))
    ensures forall i :: 0 <= i < |Segments(kind, id)| ==> '/' !in Segments(kind, id)[i]
  {
    UuidIsSegment(id);
    WordsAreGood();
  }

  lemma BareKey(base: string, suffix: string)
    requires suffix != ""
    ensures Bare(Key(base, suffix)) == Key(base, Bare(suffix))
  {
    var key := Key(base, suffix);
    assert key[|key| - 1..] == suffix[|suffix| - 1..];
    assert key[..|key| - 1] == Key(base, suffix[..|suffix| - 1]);
  }

  lemma SegmentsBelow(base: string, suffix: string, segments: seq<string>)
    requires segments != [] && GoodSegments(segments) && (forall i :: 0 <= i < |segments| ==> '/' !in segments[i])
    requires suffix != "" && Bare(suffix) == Join(segments, '/')
    requires base != "" ==> GoodSegments(Split(base, '/'))
    ensures Split(Bare(Key(base, suffix)), '/') == (if base == "" then [] else Split(base, '/')) + segments
    ensures GoodSegments(Split(Bare(Key(base, suffix)), '/'))
  {
    BareKey(base, suffix);
    SplitJoin(segments, '/');
    if base != "" { SplitAppend(base, '/', Bare(suffix)); }
  }

  /** The keys that other keys are made from, by appending to them. */
  predicate IsDirectory(kind: Kind) {
    kind in {Blocks, Attempt, Checkpoint, History}
  }

  lemma SuffixEnds(kind: Kind, id: string)
    ensures Suffix(kind, id) != "" && (Last(Suffix(kind, id)) == '/' <==> IsDirectory(kind))
  {
  }

  /** Each key is the prefix's segments and then its own, none of them empty, `.` or `..`; exactly the
      directory keys end in a slash. */
  lemma KeySegments(prefix: string, id: string, kind: Kind)
    requires ValidPrefix(prefix) && IsUuid(id)
    ensures KeysOf(prefix, id).Some?
    ensures var key, base := Get(KeysOf(prefix, id).value, kind), PrefixBase(prefix);
            && Split(Bare(key), '/') == (if base == "" then [] else Split(base, '/')) + Segments(kind, id)
            && GoodSegments(Split(Bare(key), '/'))
            && key != "" && (Last(key) == '/' <==> IsDirectory(kind))
  {
    SuffixEnds(kind, id);
    KeysAreSuffixes(prefix, id, kind);
    SuffixNotEmpty(kind, id);
    SuffixSegments(kind, id);
    SegmentsAreGood(kind, id);
    BaseOfNormal(prefix);
    SegmentsBelow(PrefixBase(prefix), Suffix(kind, id), Segments(kind, id));
  }

  lemma SuffixNotEmpty(kind: Kind, id: string)
    ensures Suffix(kind, id) != "" && Segments(kind, id) != []
  {
    Marked(kind, id);
  }

  lemma BaseOfNormal(prefix: string)
    requires ValidPrefix(prefix)
    ensures PrefixBase(NormalizePrefix(prefix).value) == PrefixBase(prefix)
    ensures PrefixBase(prefix) != "" ==> GoodSegments(Split(PrefixBase(prefix), '/'))
  {
    var base := PrefixBase(prefix);
    if EndsWith(prefix, "/") && base != "" {
      assert prefix == base + "/";
    } else {
      assert NormalizePrefix(prefix) == Some(base);
    }
  }
}
