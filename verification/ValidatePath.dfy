/**
 * The path recogniser: regular expressions built the way the source builds them, layered
 * pre-checks, and the grammar they amount to.
 */
module ValidatePath {
  import Text

  // ---- regular expressions ----------------------------------------------------------------

  datatype Regex =
    | OneOf(chars: set<char>)
    | Cat(first: Regex, second: Regex)
    | Alt(left: Regex, right: Regex)
    | Many(body: Regex)
    | Maybe(body: Regex)

  predicate Matches(r: Regex, s: string)
    decreases r, |s|
  {
    match r
    case OneOf(chars) => |s| == 1 && s[0] in chars
    case Cat(first, second) => exists k | 0 <= k <= |s| :: Matches(first, s[..k]) && Matches(second, s[k..])
    case Alt(left, right) => Matches(left, s) || Matches(right, s)
    case Many(body) => s == [] || exists k | 0 < k <= |s| :: Matches(body, s[..k]) && Matches(r, s[k..])
    case Maybe(body) => s == [] || Matches(body, s)
  }

  function Lit(c: char): Regex { OneOf({c}) }

  function Plus(body: Regex): Regex { Cat(body, Many(body)) }

  /** `E(?:sE)*`: one or more `E`, separated by `sep`. */
  function SeparatedBy(sep: char, body: Regex): Regex { Cat(body, Many(Cat(Lit(sep), body))) }

  const LETTERS: set<char> := set c: char | 'a' <= c <= 'z'
  const DIGITS: set<char> := set c: char | '0' <= c <= '9'
  const PLAIN: set<char> := LETTERS + DIGITS + {'-'}
  const UNDERSCORED: set<char> := LETTERS + DIGITS + {'_', '-'}
  const PARAM_NAME: set<char> := LETTERS + DIGITS + {'_'}

  function Segment(chars: set<char>): Regex { SeparatedBy('.', Plus(OneOf(chars))) }

  const PARAM: Regex := Cat(Lit(':'), Plus(OneOf(PARAM_NAME)))

  /** `^\/(?:E(?:\/E)*)?$` */
  function Rooted(segment: Regex): Regex { Cat(Lit('/'), Maybe(SeparatedBy('/', segment))) }

  const PATH_REGEX: Regex := Rooted(Segment(PLAIN))
  const PATH_REGEX_WITH_UNDERSCORE: Regex := Rooted(Segment(UNDERSCORED))
  const PATH_REGEX_WITH_PARAMS: Regex := Rooted(Alt(Segment(UNDERSCORED), PARAM))

  // ---- the grammar ------------------------------------------------------------------------

  function Split(s: string, sep: char): (pieces: seq<string>)
    ensures |pieces| >= 1
    decreases |s|
  {
    if sep !in s then [s] else
      var i := Index(s, sep);
      [s[..i]] + Split(s[i + 1..], sep)
  }

  function Index(s: string, c: char): (i: nat)
    requires c in s
    ensures i < |s| && s[i] == c && c !in s[..i]
  {
    if s[0] == c then 0 else 1 + Index(s[1..], c)
  }

  predicate Word(s: string, chars: set<char>) {
    s != [] && forall i | 0 <= i < |s| :: s[i] in chars
  }

  predicate Words(pieces: seq<string>, chars: set<char>) {
    forall piece | piece in pieces :: Word(piece, chars)
  }

  predicate Dotted(s: string, chars: set<char>) {
    Words(Split(s, '.'), chars)
  }

  datatype Language = WithoutUnderscore | WithUnderscore | WithParams

  predicate ValidSegment(language: Language, s: string) {
    match language
    case WithoutUnderscore => Dotted(s, PLAIN)
    case WithUnderscore => Dotted(s, UNDERSCORED)
    case WithParams => Dotted(s, UNDERSCORED) || (s != [] && s[0] == ':' && Word(s[1..], PARAM_NAME))
  }

  /** "/" alone, or "/"-separated valid segments after the leading "/". */
  predicate ValidPath(language: Language, path: string) {
    && path != [] && path[0] == '/'
    && (path == "/" || ValidSegments(language, Split(path[1..], '/')))
  }

  predicate ValidSegments(language: Language, segments: seq<string>) {
    forall segment | segment in segments :: ValidSegment(language, segment)
  }

  // ---- the expressions denote the grammar -------------------------------------------------

  lemma {:induction false} ManyIsAll(chars: set<char>, s: string)
    ensures Matches(Many(OneOf(chars)), s) <==> forall i | 0 <= i < |s| :: s[i] in chars
    decreases |s|
  {
    if s != [] {
      ManyIsAll(chars, s[1..]);
      if Matches(Many(OneOf(chars)), s) {
        var k :| 0 < k <= |s| && Matches(OneOf(chars), s[..k]) && Matches(Many(OneOf(chars)), s[k..]);
        assert k == 1;
        forall i | 0 <= i < |s| ensures s[i] in chars {
          assert i > 0 ==> s[i] == s[1..][i - 1];
        }
      }
      if forall i | 0 <= i < |s| :: s[i] in chars {
        assert Matches(OneOf(chars), s[..1]) && Matches(Many(OneOf(chars)), s[1..]);
      }
    }
  }

  lemma PlusIsWord(chars: set<char>, s: string)
    ensures Matches(Plus(OneOf(chars)), s) <==> Word(s, chars)
  {
    if Matches(Plus(OneOf(chars)), s) {
      var k :| 0 <= k <= |s| && Matches(OneOf(chars), s[..k]) && Matches(Many(OneOf(chars)), s[k..]);
      assert k == 1;
      ManyIsAll(chars, s[1..]);
      forall i | 0 <= i < |s| ensures s[i] in chars {
        assert i > 0 ==> s[i] == s[1..][i - 1];
      }
    }
    if Word(s, chars) {
      ManyIsAll(chars, s[1..]);
      assert Matches(OneOf(chars), s[..1]) && Matches(Many(OneOf(chars)), s[1..]);
    }
  }

  lemma CatIntro(first: Regex, second: Regex, s: string, k: nat)
    requires k <= |s| && Matches(first, s[..k]) && Matches(second, s[k..])
    ensures Matches(Cat(first, second), s)
  {
  }

  lemma CatElim(first: Regex, second: Regex, s: string) returns (k: nat)
    requires Matches(Cat(first, second), s)
    ensures k <= |s| && Matches(first, s[..k]) && Matches(second, s[k..])
  {
    k :| 0 <= k <= |s| && Matches(first, s[..k]) && Matches(second, s[k..]);
  }

  lemma ManyIntro(body: Regex, s: string, k: nat)
    requires 0 < k <= |s| && Matches(body, s[..k]) && Matches(Many(body), s[k..])
    ensures Matches(Many(body), s)
  {
  }

  lemma ManyElim(body: Regex, s: string) returns (k: nat)
    requires Matches(Many(body), s) && s != []
    ensures 0 < k <= |s| && Matches(body, s[..k]) && Matches(Many(body), s[k..])
  {
    k :| 0 < k <= |s| && Matches(body, s[..k]) && Matches(Many(body), s[k..]);
  }

  /** A leading literal. */
  lemma LitThen(c: char, body: Regex, s: string)
    ensures Matches(Cat(Lit(c), body), s) <==> s != [] && s[0] == c && Matches(body, s[1..])
  {
  }

  /** The tail of a separated list: nothing, or a separator and a shorter list. */
  lemma TailElim(sep: char, body: Regex, s: string)
    requires Matches(Many(Cat(Lit(sep), body)), s) && s != []
    ensures s[0] == sep && Matches(SeparatedBy(sep, body), s[1..])
  {
    var item := Cat(Lit(sep), body);
    var k := ManyElim(item, s);
    LitThen(sep, body, s[..k]);
    assert s[..k][1..] == s[1..][..k - 1] && s[k..] == s[1..][k - 1..];
    CatIntro(body, Many(item), s[1..], k - 1);
  }

  lemma TailIntro(sep: char, body: Regex, s: string)
    requires s != [] && s[0] == sep && Matches(SeparatedBy(sep, body), s[1..])
    ensures Matches(Many(Cat(Lit(sep), body)), s)
  {
    var item := Cat(Lit(sep), body);
    var k := CatElim(body, Many(item), s[1..]);
    assert s[..k + 1][1..] == s[1..][..k] && s[k + 1..] == s[1..][k..];
    LitThen(sep, body, s[..k + 1]);
    ManyIntro(item, s, k + 1);
  }

  predicate AllMatch(body: Regex, pieces: seq<string>) {
    forall piece | piece in pieces :: Matches(body, piece)
  }

  /** `E(?:sE)*` matches exactly the strings whose pieces between separators all match `E`. */
  lemma {:induction false} SeparatedIsSplit(sep: char, body: Regex, s: string)
    requires forall w: string | Matches(body, w) :: sep !in w
    ensures Matches(SeparatedBy(sep, body), s) <==> AllMatch(body, Split(s, sep))
    decreases |s|
  {
    if Matches(SeparatedBy(sep, body), s) {
      SplitOfMatch(sep, body, s);
    }
    if AllMatch(body, Split(s, sep)) {
      MatchOfSplit(sep, body, s);
    }
  }

  lemma {:induction false} SplitOfMatch(sep: char, body: Regex, s: string)
    requires forall w: string | Matches(body, w) :: sep !in w
    requires Matches(SeparatedBy(sep, body), s)
    ensures AllMatch(body, Split(s, sep))
    decreases |s|
  {
    var k := CatElim(body, Many(Cat(Lit(sep), body)), s);
    assert sep !in s[..k];
    if k == |s| {
      assert s[..k] == s;
    } else {
      TailElim(sep, body, s[k..]);
      IndexIs(s, sep, k);
      assert s[k..][1..] == s[k + 1..];
      SplitOfMatch(sep, body, s[k + 1..]);
    }
  }

  lemma IndexIs(s: string, c: char, k: nat)
    requires k < |s| && s[k] == c && c !in s[..k]
    ensures Index(s, c) == k
  {
  }

  lemma {:induction false} MatchOfSplit(sep: char, body: Regex, s: string)
    requires AllMatch(body, Split(s, sep))
    ensures Matches(SeparatedBy(sep, body), s)
    decreases |s|
  {
    var tail := Many(Cat(Lit(sep), body));
    if sep !in s {
      assert Split(s, sep)[0] == s;
      assert s[..|s|] == s && s[|s|..] == [];
      CatIntro(body, tail, s, |s|);
    } else {
      var i := Index(s, sep);
      assert Split(s, sep)[0] == s[..i];
      assert Split(s, sep)[1..] == Split(s[i + 1..], sep);
      MatchOfSplit(sep, body, s[i + 1..]);
      assert s[i..][1..] == s[i + 1..];
      TailIntro(sep, body, s[i..]);
      CatIntro(body, tail, s, i);
    }
  }

  // ---- characters -------------------------------------------------------------------------

  lemma SegmentIsDotted(chars: set<char>, s: string)
    requires '.' !in chars
    ensures Matches(Segment(chars), s) <==> Dotted(s, chars)
  {
    forall w: string ensures Matches(Plus(OneOf(chars)), w) <==> Word(w, chars) {
      PlusIsWord(chars, w);
    }
    SeparatedIsSplit('.', Plus(OneOf(chars)), s);
  }

  function SegmentRegex(language: Language): Regex {
    match language
    case WithoutUnderscore => Segment(PLAIN)
    case WithUnderscore => Segment(UNDERSCORED)
    case WithParams => Alt(Segment(UNDERSCORED), PARAM)
  }

  lemma SegmentMatches(language: Language, s: string)
    ensures Matches(SegmentRegex(language), s) <==> ValidSegment(language, s)
  {
    SegmentIsDotted(PLAIN, s);
    SegmentIsDotted(UNDERSCORED, s);
    LitThen(':', Plus(OneOf(PARAM_NAME)), s);
    if s != [] {
      PlusIsWord(PARAM_NAME, s[1..]);
    }
  }

  const PATH_CHARS: set<char> := UNDERSCORED + {'.', ':', '/'}

  lemma WordsAt(s: string, sep: char, chars: set<char>)
    requires Words(Split(s, sep), chars)
    ensures s != []
    ensures sep !in s ==> Word(s, chars)
    ensures sep in s ==> Word(s[..Index(s, sep)], chars) && Words(Split(s[Index(s, sep) + 1..], sep), chars)
  {
    assert Split(s, sep)[0] in Split(s, sep);
    if sep in s {
      assert Split(s, sep)[1..] == Split(s[Index(s, sep) + 1..], sep);
    }
  }

  /** In a string whose pieces are words, separators stand apart, and no other character is new. */
  lemma {:induction false} PiecesSurround(s: string, sep: char, chars: set<char>, i: nat)
    requires i < |s| && Words(Split(s, sep), chars) && sep !in chars
    ensures s[i] == sep || s[i] in chars
    ensures s[i] == sep ==> 0 < i < |s| - 1 && s[i - 1] in chars && s[i + 1] in chars
    decreases |s|
  {
    WordsAt(s, sep, chars);
    if sep in s {
      var k := Index(s, sep);
      var rest := s[k + 1..];
      WordsAt(rest, sep, chars);
      if i < k {
        assert s[..k][i] == s[i];
      } else if i > k {
        PiecesSurround(rest, sep, chars, i - k - 1);
      } else {
        assert s[..k][k - 1] == s[k - 1];
        PiecesSurround(rest, sep, chars, 0);
      }
    }
  }

  lemma SegmentSurrounds(language: Language, s: string, i: nat)
    requires ValidSegment(language, s) && i < |s|
    ensures s[i] in PATH_CHARS && s[i] != '/'
    ensures s[i] == '.' ==> 0 < i < |s| - 1 && s[i - 1] != '.' && s[i + 1] != '.'
  {
    if Dotted(s, PLAIN) {
      PiecesSurround(s, '.', PLAIN, i);
    } else if Dotted(s, UNDERSCORED) {
      PiecesSurround(s, '.', UNDERSCORED, i);
    } else {
      assert i > 0 ==> s[i] == s[1..][i - 1];
    }
  }

  lemma SegmentNotEmpty(language: Language)
    ensures !ValidSegment(language, [])
  {
    assert Split([], '.')[0] in Split([], '.');
  }

  lemma SegmentsAt(language: Language, s: string)
    requires ValidSegments(language, Split(s, '/'))
    ensures s != []
    ensures '/' !in s ==> ValidSegment(language, s)
    ensures '/' in s ==>
              && ValidSegment(language, s[..Index(s, '/')])
              && ValidSegments(language, Split(s[Index(s, '/') + 1..], '/'))
  {
    SegmentNotEmpty(language);
    assert Split(s, '/')[0] in Split(s, '/');
    if '/' in s {
      assert Split(s, '/')[1..] == Split(s[Index(s, '/') + 1..], '/');
    }
  }

  /** What the neighbours of dots and slashes look like in a list of valid segments. */
  lemma {:induction false} SegmentsSurround(language: Language, s: string, i: nat)
    requires ValidSegments(language, Split(s, '/')) && i < |s|
    ensures s[i] in PATH_CHARS
    ensures s[i] == '/' ==> 0 < i < |s| - 1 && s[i + 1] != '/'
    ensures s[i] == '.' ==> 0 < i < |s| - 1 && s[i + 1] != '.' && s[i + 1] != '/'
    decreases |s|
  {
    SegmentsAt(language, s);
    if '/' !in s {
      SegmentSurrounds(language, s, i);
    } else {
      var k := Index(s, '/');
      var rest := s[k + 1..];
      SegmentsAt(language, rest);
      if i < k {
        SegmentSurrounds(language, s[..k], i);
        assert s[..k][i] == s[i] && (i + 1 < k ==> s[..k][i + 1] == s[i + 1]);
      } else if i > k {
        SegmentsSurround(language, rest, i - k - 1);
      } else {
        SegmentNotEmpty(language);
        SegmentsSurround(language, rest, 0);
      }
    }
  }

  lemma PathSurrounds(language: Language, path: string, i: nat)
    requires ValidPath(language, path) && i < |path|
    ensures path[i] in PATH_CHARS
    ensures path[i] == '/' ==> (i < |path| - 1 && path[i + 1] != '/') || path == "/"
    ensures path[i] == '.' ==> i < |path| - 1 && path[i + 1] != '.' && path[i + 1] != '/'
  {
    if path != "/" {
      if i > 0 {
        SegmentsSurround(language, path[1..], i - 1);
      } else {
        SegmentsSurround(language, path[1..], 0);
      }
    }
  }

  /** Each compiled expression accepts exactly its grammar. */
  lemma RegexIsGrammar(language: Language, path: string)
    ensures Matches(Rooted(SegmentRegex(language)), path) <==> ValidPath(language, path)
  {
    var segment := SegmentRegex(language);
    LitThen('/', Maybe(SeparatedBy('/', segment)), path);
    if path != [] {
      forall w: string ensures Matches(segment, w) <==> ValidSegment(language, w) {
        SegmentMatches(language, w);
      }
      forall w: string | Matches(segment, w) ensures '/' !in w {
        forall i | 0 <= i < |w| ensures w[i] != '/' {
          SegmentSurrounds(language, w, i);
        }
      }
      SeparatedIsSplit('/', segment, path[1..]);
      assert path[1..] == [] && path[0] == '/' ==> path == "/";
    }
  }

  // ---- the three languages ----------------------------------------------------------------

  lemma {:induction false} SplitChars(s: string, sep: char, c: char)
    requires c != sep
    ensures c in s <==> exists piece | piece in Split(s, sep) :: c in piece
    decreases |s|
  {
    if sep !in s {
      assert Split(s, sep)[0] in Split(s, sep);
    } else {
      var k := Index(s, sep);
      var rest := s[k + 1..];
      assert s == s[..k] + [sep] + rest;
      assert Split(s, sep) == [s[..k]] + Split(rest, sep);
      SplitChars(rest, sep, c);
      assert s[..k] in Split(s, sep);
    }
  }

  lemma DottedNested(s: string)
    ensures Dotted(s, PLAIN) <==> Dotted(s, UNDERSCORED) && '_' !in s
    ensures Dotted(s, UNDERSCORED) ==> ':' !in s
  {
    SplitChars(s, '.', '_');
    SplitChars(s, '.', ':');
    forall chunk: string
      ensures Word(chunk, PLAIN) <==> Word(chunk, UNDERSCORED) && '_' !in chunk
      ensures Word(chunk, UNDERSCORED) ==> ':' !in chunk
    {
    }
  }

  lemma SegmentNested(s: string)
    ensures ValidSegment(WithoutUnderscore, s) <==> ValidSegment(WithUnderscore, s) && '_' !in s
    ensures ValidSegment(WithUnderscore, s) <==> ValidSegment(WithParams, s) && ':' !in s
  {
    DottedNested(s);
  }

  /** Each option adds exactly the paths that use its character. */
  lemma LanguagesNested(path: string)
    ensures ValidPath(WithoutUnderscore, path) <==> ValidPath(WithUnderscore, path) && '_' !in path
    ensures ValidPath(WithUnderscore, path) <==> ValidPath(WithParams, path) && ':' !in path
  {
    if path != [] && path[0] == '/' {
      var body := path[1..];
      assert path == ['/'] + body;
      SplitChars(body, '/', '_');
      SplitChars(body, '/', ':');
      forall segment: string
        ensures ValidSegment(WithoutUnderscore, segment) <==> ValidSegment(WithUnderscore, segment) && '_' !in segment
        ensures ValidSegment(WithUnderscore, segment) <==> ValidSegment(WithParams, segment) && ':' !in segment
      {
        SegmentNested(segment);
      }
    }
  }

  // ---- the function -----------------------------------------------------------------------

  datatype Options = Options(allowTrailingSlash: bool, allowUnderscore: bool, allowParams: bool)

  function LanguageOf(options: Options): Language {
    if options.allowParams then WithParams
    else if options.allowUnderscore then WithUnderscore
    else WithoutUnderscore
  }

  predicate Includes(s: string, part: string) {
    exists i | 0 <= i <= |s| - |part| :: At(s, part, i)
  }

  predicate At(s: string, part: string, i: nat)
    requires i + |part| <= |s|
  {
    s[i..i + |part|] == part
  }

  /**
   * `lower` is `String.prototype.toLowerCase`; `decode` is `decodeURIComponent`, with `None` for
   * the error it throws.
   */
  predicate Validate(raw: string, options: Options, lower: string -> string, decode: string -> Decoded) {
    var path := lower(raw);
    && path != []
    && path[0] == '/'
    && !Includes(path, "?") && !Includes(path, "#")
    && !Includes(path, "//")
    && !Includes(path, "..") && !Includes(path, "./")
    && decode(path) == Decoded(path)
    && !(exists i | 0 <= i < |path| :: Text.IsSpace(path[i]))
    && path == lower(path)
    && !(!options.allowTrailingSlash && |path| > 1 && path[|path| - 1] == '/')
    && Matches(
         if options.allowParams then PATH_REGEX_WITH_PARAMS
         else if options.allowUnderscore then PATH_REGEX_WITH_UNDERSCORE
         else PATH_REGEX,
         path)
  }

  datatype Decoded = Decoded(text: string) | Malformed

  /** What is used of the two library functions: they keep strings with nothing for them to change. */
  ghost predicate LibraryKeeps(lower: string -> string, decode: string -> Decoded) {
    && (forall s: string | (forall i | 0 <= i < |s| :: s[i] in PATH_CHARS) :: lower(s) == s)
    && (forall s: string | '%' !in s :: decode(s) == Decoded(s))
  }

  /** Every check before the expression is already implied by it. */
  lemma PreChecksRedundant(language: Language, path: string)
    requires ValidPath(language, path)
    ensures forall i | 0 <= i < |path| :: path[i] in PATH_CHARS
    ensures !Includes(path, "?") && !Includes(path, "#")
    ensures !Includes(path, "//") && !Includes(path, "..") && !Includes(path, "./")
    ensures !(exists i | 0 <= i < |path| :: Text.IsSpace(path[i])) && '%' !in path
    ensures |path| > 1 ==> path[|path| - 1] != '/'
  {
    forall i | 0 <= i < |path|
      ensures path[i] in PATH_CHARS
      ensures path[i] == '/' ==> (i < |path| - 1 && path[i + 1] != '/') || path == "/"
      ensures path[i] == '.' ==> i < |path| - 1 && path[i + 1] != '.' && path[i + 1] != '/'
    {
      PathSurrounds(language, path, i);
    }
    PathSurrounds(language, path, |path| - 1);
    forall part, i | part in {"?", "#", "//", "..", "./"} && 0 <= i <= |path| - |part|
      ensures !At(path, part, i)
    {
      assert path[i..i + |part|][0] == path[i];
      assert |part| == 2 ==> path[i..i + |part|][1] == path[i + 1];
    }
  }

  /** `validatePath` accepts exactly the grammar of its language, on the lower-cased path. */
  lemma ValidateIsGrammar(raw: string, options: Options, lower: string -> string, decode: string -> Decoded)
    requires LibraryKeeps(lower, decode)
    ensures Validate(raw, options, lower, decode) <==> ValidPath(LanguageOf(options), lower(raw))
  {
    var path := lower(raw);
    var language := LanguageOf(options);
    RegexIsGrammar(language, path);
    if ValidPath(language, path) {
      PreChecksRedundant(language, path);
    }
  }

  /** The trailing-slash option decides nothing, and `allowUnderscore` only without params. */
  lemma OptionsThatMatter(raw: string, a: Options, b: Options, lower: string -> string, decode: string -> Decoded)
    requires LibraryKeeps(lower, decode)
    requires a.allowParams == b.allowParams && (a.allowParams || a.allowUnderscore == b.allowUnderscore)
    ensures Validate(raw, a, lower, decode) <==> Validate(raw, b, lower, decode)
  {
    ValidateIsGrammar(raw, a, lower, decode);
    ValidateIsGrammar(raw, b, lower, decode);
  }

  // ---- joining valid paths ----------------------------------------------------------------

  lemma SplitFirst(a: string, sep: char, b: string)
    requires sep !in a
    ensures Split(a + [sep] + b, sep) == [a] + Split(b, sep)
  {
    var s := a + [sep] + b;
    assert s[..|a|] == a && s[|a| + 1..] == b;
    IndexIs(s, sep, |a|);
  }

  lemma CutAt(a: string, sep: char, b: string, k: nat)
    requires k < |a| && a[k] == sep
    ensures a + [sep] + b == a[..k] + [sep] + (a[k + 1..] + [sep] + b)
  {
  }

  lemma {:induction false} SplitConcat(a: string, sep: char, b: string)
    ensures Split(a + [sep] + b, sep) == Split(a, sep) + Split(b, sep)
    decreases |a|
  {
    if sep !in a {
      SplitFirst(a, sep, b);
    } else {
      var k := Index(a, sep);
      var front, back := a[..k], a[k + 1..];
      calc {
        Split(a + [sep] + b, sep);
        { CutAt(a, sep, b, k); }
        Split(front + [sep] + (back + [sep] + b), sep);
        { SplitFirst(front, sep, back + [sep] + b); }
        [front] + Split(back + [sep] + b, sep);
        { SplitConcat(back, sep, b); }
        [front] + (Split(back, sep) + Split(b, sep));
        ([front] + Split(back, sep)) + Split(b, sep);
        Split(a, sep) + Split(b, sep);
      }
    }
  }

  /** A valid path below a valid path is valid. */
  lemma ValidBelow(language: Language, mount: string, path: string)
    requires ValidPath(language, mount) && ValidPath(language, path) && mount != "/" && path != "/"
    ensures ValidPath(language, mount + path)
  {
    assert path == ['/'] + path[1..];
    assert (mount + path)[1..] == mount[1..] + ['/'] + path[1..];
    SplitConcat(mount[1..], '/', path[1..]);
  }
}
