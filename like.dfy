/** SQL `LIKE` / PostgreSQL `ILIKE` emulation and the custom query operators
    built on it (src/utils-custom-operators.ts).

    `like(value, search)` rewrites `search` into a regular expression in
    three passes and tests `value` against it. The model writes the three
    passes out as text rewrites, reads the resulting regular expression
    back into tokens, and matches the tokens with a recursive matcher; the
    lemma `RegexReadsAsPattern` shows that the whole pipeline means the
    direct reading of the pattern (`%` any run, `_` one character, every
    other character itself). */
module Like {
  import opened Wrappers
  import opened Values

  /** The characters `like` escapes before building its regular expression. */
  const Specials: set<char> := {'/', '.', '*', '+', '?', '|', '(', ')', '[', ']', '{', '}', '\\'}

  /** The characters at which `.` stops: JavaScript's line terminators. */
  predicate LineTerminator(c: char)
  {
    c == '\n' || c == '\r' || c == '\U{2028}' || c == '\U{2029}'
  }

  /** The case folding of the `i` flag, for ASCII letters. */
  function Fold(c: char): (f: char)
    ensures 'a' <= c <= 'z' ==> f as int == c as int - 32
    ensures !('a' <= c <= 'z') ==> f == c
    ensures LineTerminator(f) <==> LineTerminator(c)
  {
    if 'a' <= c <= 'z' then (c as int - 32) as char else c
  }

  function FoldAll(s: string): (r: string)
    ensures |r| == |s| && forall i :: 0 <= i < |s| ==> r[i] == Fold(s[i])
  {
    seq(|s|, i requires 0 <= i < |s| => Fold(s[i]))
  }

  // ---------------------------------------------------------------------
  // The three rewrites of the search string.

  /** Rewrites every character of `s` by `f` and concatenates the results:
      a global single-character `String.prototype.replace`. */
  function FlatMap(s: string, f: char -> string): string
  {
    if |s| == 0 then [] else f(s[0]) + FlatMap(s[1..], f)
  }

  lemma {:induction false} FlatMapConcat(a: string, b: string, f: char -> string)
    ensures FlatMap(a + b, f) == FlatMap(a, f) + FlatMap(b, f)
  {
    if |a| == 0 {
      assert a + b == b;
    } else {
      assert (a + b)[0] == a[0];
      assert (a + b)[1..] == a[1..] + b;
      FlatMapConcat(a[1..], b, f);
    }
  }

  lemma FlatMapOne(c: char, f: char -> string)
    ensures FlatMap([c], f) == f(c)
  {
    assert [c][1..] == [];
  }

  /** `replace(/(\/|\.|…|\\)/g, '\\$1')`: a backslash before every special. */
  function EscapeChar(c: char): string
  {
    if c in Specials then ['\\', c] else [c]
  }

  /** `replace(/%/g, '.*')`. */
  function PercentChar(c: char): string
  {
    if c == '%' then ".*" else [c]
  }

  /** `replace(/_/g, '.')`. */
  function UnderscoreChar(c: char): string
  {
    if c == '_' then "." else [c]
  }

  /** The body of the regular expression `like` builds from `search`; it is
      wrapped as `^…$`. */
  function RegexSource(search: string): string
  {
    FlatMap(FlatMap(FlatMap(search, EscapeChar), PercentChar), UnderscoreChar)
  }

  // ---------------------------------------------------------------------
  // Patterns and the matcher.

  /** One element of a pattern: a literal character, `_` (one character),
      `%` (any run), or an unescaped `^` / `$`, which the regular
      expression reads as an anchor. */
  datatype Token = Lit(c: char) | One | Run | Start | End

  /** The direct reading of a `LIKE` pattern. */
  function TokenOf(c: char): Token
  {
    if c == '%' then Run
    else if c == '_' then One
    else if c == '^' then Start
    else if c == '$' then End
    else Lit(c)
  }

  function Pattern(search: string): (p: seq<Token>)
    ensures |p| == |search| && forall i :: 0 <= i < |search| ==> p[i] == TokenOf(search[i])
  {
    seq(|search|, i requires 0 <= i < |search| => TokenOf(search[i]))
  }

  /** How JavaScript reads the regular expressions `like` builds: an
      escaped special is that character, `.*` any run, `.` one
      character, `^` and `$` anchors, any other character itself. A bare
      special or an escape of a non-special cannot come out of the
      rewrites and is not read (`None`). */
  function ParseRegex(src: string): (r: Option<seq<Token>>)
    decreases |src|
  {
    if |src| == 0 then Some([])
    else if src[0] == '\\' then
      if |src| >= 2 && src[1] in Specials then
        match ParseRegex(src[2..])
        case Some(rest) => Some([Lit(src[1])] + rest)
        case None => None
      else None
    else if src[0] == '.' then
      if |src| >= 2 && src[1] == '*' then
        match ParseRegex(src[2..])
        case Some(rest) => Some([Run] + rest)
        case None => None
      else
        match ParseRegex(src[1..])
        case Some(rest) => Some([One] + rest)
        case None => None
    else if src[0] in Specials then None
    else
      match ParseRegex(src[1..])
      case Some(rest) => Some([RegexCharToken(src[0])] + rest)
      case None => None
  }

  /** What the regular expression reads an unescaped character other than
      `.` and the specials as: `^` and `$` are anchors, and every other
      character, `%` and `_` included, is itself. */
  function RegexCharToken(c: char): (t: Token)
    ensures c == '^' ==> t == Start
    ensures c == '$' ==> t == End
    ensures c != '^' && c != '$' ==> t == Lit(c)
  {
    if c == '^' then Start else if c == '$' then End else Lit(c)
  }

  /** A bare `%` or `_` in a regular expression is the character itself, so
      a search whose `%` or `_` were not rewritten would not read as the
      pattern: the rewrites of `%` and `_` are what make them wildcards. */
  lemma UnrewrittenWildcardsAreLiterals()
    ensures ParseRegex("%") == Some([Lit('%')]) && Pattern("%") == [Run]
    ensures ParseRegex("_") == Some([Lit('_')]) && Pattern("_") == [One]
  {
    ReadLiteral('%');
    ReadLiteral('_');
    assert Pattern("%")[0] == TokenOf('%') && Pattern("_")[0] == TokenOf('_');
  }

  /** A one-character regular expression that is no special, `.`, `^` or `$`
      reads as that character. */
  lemma ReadLiteral(c: char)
    requires c !in Specials && c != '^' && c != '$'
    ensures ParseRegex([c]) == Some([Lit(c)])
  {
    var src := [c];
    assert src[0] != '\\' && src[0] != '.' && src[0] !in Specials;
    assert src[1..] == [];
    assert ParseRegex(src[1..]) == Some([]);
    assert [RegexCharToken(c)] + [] == [Lit(c)];
  }

  /** `c` as the regular expression compares it with `pattern`. */
  predicate SameChar(c: char, pattern: char, ignoreCase: bool)
  {
    if ignoreCase then Fold(c) == Fold(pattern) else c == pattern
  }

  /** Whether `p` matches `value` from index `i` to its end. Index 0 is the
      start of the value: `^…$` anchors the whole pattern. */
  predicate Matches(p: seq<Token>, value: string, i: nat, ignoreCase: bool)
    requires i <= |value|
    decreases |p|, |value| - i
  {
    if |p| == 0 then i == |value|
    else match p[0]
      case Lit(c) => i < |value| && SameChar(value[i], c, ignoreCase) && Matches(p[1..], value, i + 1, ignoreCase)
      case One => i < |value| && !LineTerminator(value[i]) && Matches(p[1..], value, i + 1, ignoreCase)
      case Run =>
        Matches(p[1..], value, i, ignoreCase) ||
        (i < |value| && !LineTerminator(value[i]) && Matches(p, value, i + 1, ignoreCase))
      case Start => i == 0 && Matches(p[1..], value, i, ignoreCase)
      case End => i == |value| && Matches(p[1..], value, i, ignoreCase)
  }

  /** `like(value, search, regexOptions)` for the options its callers pass,
      `g` or `ig`: the rewrites are global (without `g` the escape pass would
      escape only the first special), and `ignoreCase` says whether `i` is
      there. */
  predicate LikeWith(value: string, search: string, ignoreCase: bool)
  {
    match ParseRegex(RegexSource(search))
    case Some(p) => Matches(p, value, 0, ignoreCase)
    case None => false
  }

  /** `like(value, search)`: the default options `'g'`. */
  predicate Like(value: string, search: string)
  {
    LikeWith(value, search, false)
  }

  /** `iLike(value, search)`: `like` with the options `'ig'`. */
  predicate ILike(value: string, search: string)
  {
    LikeWith(value, search, true)
  }

  // ---------------------------------------------------------------------
  // The rewrites mean the pattern.

  /** What one search character becomes in the regular expression. */
  function CharRegex(c: char): string
  {
    if c in Specials then ['\\', c] else if c == '%' then ".*" else if c == '_' then "." else [c]
  }

  /** The text one search character becomes after the three rewrites. */
  lemma RewriteOfChar(c: char)
    ensures FlatMap(FlatMap(EscapeChar(c), PercentChar), UnderscoreChar) == CharRegex(c)
  {
    if c in Specials {
      assert ['\\', c] == ['\\'] + [c];
      FlatMapConcat(['\\'], [c], PercentChar);
      FlatMapOne('\\', PercentChar);
      FlatMapOne(c, PercentChar);
      FlatMapConcat(['\\'], [c], UnderscoreChar);
      FlatMapOne('\\', UnderscoreChar);
      FlatMapOne(c, UnderscoreChar);
    } else if c == '%' {
      FlatMapOne(c, PercentChar);
      assert ".*" == ['.'] + ['*'];
      FlatMapConcat(['.'], ['*'], UnderscoreChar);
      FlatMapOne('.', UnderscoreChar);
      FlatMapOne('*', UnderscoreChar);
    } else {
      FlatMapOne(c, PercentChar);
      FlatMapOne(c, UnderscoreChar);
    }
  }

  /** The regular expression of a non-empty search starts with the rewrite
      of its first character. */
  lemma {:induction false} RegexSourceCons(search: string)
    requires |search| > 0
    ensures RegexSource(search) ==
      FlatMap(FlatMap(EscapeChar(search[0]), PercentChar), UnderscoreChar) + RegexSource(search[1..])
  {
    var e1 := FlatMap(search, EscapeChar);
    assert e1 == EscapeChar(search[0]) + FlatMap(search[1..], EscapeChar);
    FlatMapConcat(EscapeChar(search[0]), FlatMap(search[1..], EscapeChar), PercentChar);
    FlatMapConcat(FlatMap(EscapeChar(search[0]), PercentChar), FlatMap(FlatMap(search[1..], EscapeChar), PercentChar),
                  UnderscoreChar);
  }

  /** No rewritten search starts with a bare `*`: `*` is always escaped. */
  lemma RegexSourceNoLeadingStar(search: string)
    requires |search| > 0
    ensures |RegexSource(search)| > 0 && RegexSource(search)[0] != '*'
  {
    RegexSourceCons(search);
    RewriteOfChar(search[0]);
  }

  /** Reading an escaped special in front of a readable rest. */
  lemma ReadEscaped(c: char, rest: string, tokens: seq<Token>)
    requires c in Specials
    requires ParseRegex(rest) == Some(tokens)
    ensures ParseRegex(CharRegex(c) + rest) == Some([TokenOf(c)] + tokens)
  {
    var src := CharRegex(c) + rest;
    assert src[0] == '\\' && src[1] == c && src[2..] == rest;
  }

  /** Reading `.*` in front of a readable rest. */
  lemma ReadRun(rest: string, tokens: seq<Token>)
    requires ParseRegex(rest) == Some(tokens)
    ensures ParseRegex(CharRegex('%') + rest) == Some([Run] + tokens)
  {
    var src := CharRegex('%') + rest;
    assert src[0] == '.' && src[1] == '*' && src[2..] == rest;
  }

  /** Reading a `.` that no `*` follows in front of a readable rest. */
  lemma ReadOne(rest: string, tokens: seq<Token>)
    requires |rest| > 0 ==> rest[0] != '*'
    requires ParseRegex(rest) == Some(tokens)
    ensures ParseRegex(CharRegex('_') + rest) == Some([One] + tokens)
  {
    var src := CharRegex('_') + rest;
    assert src[0] == '.' && src[1..] == rest;
    if |rest| > 0 {
      assert src[1] == rest[0] != '*';
    } else {
      assert |src| == 1;
    }
  }

  /** Reading a plain character in front of a readable rest. */
  lemma ReadPlain(c: char, rest: string, tokens: seq<Token>)
    requires c !in Specials && c != '%' && c != '_'
    requires ParseRegex(rest) == Some(tokens)
    ensures ParseRegex(CharRegex(c) + rest) == Some([TokenOf(c)] + tokens)
  {
    var src := CharRegex(c) + rest;
    assert src[0] == c && src[1..] == rest;
  }

  /** Reading one character's rewrite in front of a readable rest. A rest
      that starts with `*` would join a `.` into `.*`; no rewrite starts
      that way. */
  lemma ReadCharRegex(c: char, rest: string, tokens: seq<Token>)
    requires ParseRegex(rest) == Some(tokens)
    requires |rest| > 0 ==> rest[0] != '*'
    ensures ParseRegex(CharRegex(c) + rest) == Some([TokenOf(c)] + tokens)
  {
    if c in Specials {
      ReadEscaped(c, rest, tokens);
    } else if c == '%' {
      ReadRun(rest, tokens);
    } else if c == '_' {
      ReadOne(rest, tokens);
    } else {
      ReadPlain(c, rest, tokens);
    }
  }

  /** Reading the regular expression back gives the pattern's direct
      reading, for every search string. */
  lemma {:induction false} RegexReadsAsPattern(search: string)
    ensures ParseRegex(RegexSource(search)) == Some(Pattern(search))
    decreases |search|
  {
    if |search| == 0 {
      assert RegexSource(search) == [];
      assert Pattern(search) == [];
    } else {
      var rest := RegexSource(search[1..]);
      RegexSourceCons(search);
      RewriteOfChar(search[0]);
      RegexReadsAsPattern(search[1..]);
      if |search[1..]| > 0 {
        RegexSourceNoLeadingStar(search[1..]);
      } else {
        assert rest == [];
      }
      ReadCharRegex(search[0], rest, Pattern(search[1..]));
      assert Pattern(search) == [TokenOf(search[0])] + Pattern(search[1..]);
    }
  }

  /** `like` is the matcher applied to the pattern's direct reading. */
  lemma LikeMeansPattern(value: string, search: string, ignoreCase: bool)
    ensures LikeWith(value, search, ignoreCase) == Matches(Pattern(search), value, 0, ignoreCase)
  {
    RegexReadsAsPattern(search);
  }

  // ---------------------------------------------------------------------
  // What the operators promise.

  predicate NoLineTerminators(s: string)
  {
    forall i :: 0 <= i < |s| ==> !LineTerminator(s[i])
  }

  /** `%` matches every run of characters up to the end, provided `.` can
      cross it. */
  lemma {:induction false} RunMatchesRest(value: string, i: nat, ignoreCase: bool)
    requires i <= |value|
    ensures Matches([Run], value, i, ignoreCase) <==> NoLineTerminators(value[i..])
    decreases |value| - i
  {
    assert [Run][1..] == [];
    if i < |value| {
      RunMatchesRest(value, i + 1, ignoreCase);
      assert value[i..][0] == value[i];
      assert value[i..][1..] == value[i + 1..];
    }
  }

  /** `"%"` matches exactly the values without line terminators. */
  lemma PercentMatchesAnything(value: string)
    ensures Like(value, "%") <==> NoLineTerminators(value)
  {
    LikeMeansPattern(value, "%", false);
    assert Pattern("%") == [Run];
    RunMatchesRest(value, 0, false);
    assert value[0..] == value;
  }

  /** `"_"` matches exactly the one-character values other than a line
      terminator. */
  lemma UnderscoreMatchesOneChar(value: string)
    ensures Like(value, "_") <==> |value| == 1 && !LineTerminator(value[0])
  {
    LikeMeansPattern(value, "_", false);
    assert Pattern("_") == [One];
    assert [One][1..] == [];
  }

  /** A search without wildcards or anchors. */
  predicate Literal(search: string)
  {
    forall i :: 0 <= i < |search| ==> search[i] !in {'%', '_', '^', '$'}
  }

  /** A literal pattern matches from `i` exactly when the rest of the value
      is the search, character by character under the case rule. */
  lemma {:induction false} LiteralMatchesItself(search: string, value: string, i: nat, ignoreCase: bool)
    requires Literal(search) && i <= |value|
    ensures Matches(Pattern(search), value, i, ignoreCase) <==>
      |value| - i == |search| && forall j :: 0 <= j < |search| ==> SameChar(value[i + j], search[j], ignoreCase)
    decreases |search|
  {
    if |search| > 0 {
      assert Pattern(search)[1..] == Pattern(search[1..]);
      assert Literal(search[1..]) by {
        forall j | 0 <= j < |search[1..]| ensures search[1..][j] !in {'%', '_', '^', '$'} {
          assert search[1..][j] == search[j + 1];
        }
      }
      if i < |value| {
        LiteralMatchesItself(search[1..], value, i + 1, ignoreCase);
        if |value| - i == |search| && forall j :: 0 <= j < |search| ==> SameChar(value[i + j], search[j], ignoreCase) {
          forall j | 0 <= j < |search[1..]|
            ensures SameChar(value[i + 1 + j], search[1..][j], ignoreCase)
          {
            assert value[i + 1 + j] == value[i + (j + 1)];
          }
        }
        if Matches(Pattern(search), value, i, ignoreCase) {
          forall j | 0 <= j < |search|
            ensures SameChar(value[i + j], search[j], ignoreCase)
          {
            if j > 0 {
              assert search[1..][j - 1] == search[j];
              assert value[i + 1 + (j - 1)] == value[i + j];
            }
          }
        }
      }
    }
  }

  /** Anchoring and literals: a search without `%`, `_`, `^` and `$`, the
      listed specials included, matches only the value equal to it. */
  lemma LiteralSearchMatchesOnlyItself(value: string, search: string)
    requires Literal(search)
    ensures Like(value, search) <==> value == search
  {
    LikeMeansPattern(value, search, false);
    LiteralMatchesItself(search, value, 0, false);
    if |value| == |search| && forall j :: 0 <= j < |search| ==> value[0 + j] == search[j] {
      assert value == search;
    }
  }

  /** `%` at the end makes a literal search a prefix test (on values whose
      tail `.` can cross). */
  lemma {:induction false} PrefixMatches(search: string, value: string, i: nat)
    requires Literal(search) && i <= |value|
    ensures Matches(Pattern(search + "%"), value, i, false) <==>
      |value| - i >= |search| && value[i..i + |search|] == search && NoLineTerminators(value[i + |search|..])
    decreases |search|
  {
    var p := Pattern(search + "%");
    if |search| == 0 {
      assert search + "%" == "%";
      assert p == [Run];
      RunMatchesRest(value, i, false);
    } else {
      assert (search + "%")[1..] == search[1..] + "%";
      assert p[1..] == Pattern(search[1..] + "%");
      assert Literal(search[1..]) by {
        forall j | 0 <= j < |search[1..]| ensures search[1..][j] !in {'%', '_', '^', '$'} {
          assert search[1..][j] == search[j + 1];
        }
      }
      assert p[0] == Lit(search[0]);
      if i < |value| {
        PrefixMatches(search[1..], value, i + 1);
        if |value| - i >= |search| {
          assert value[i..i + |search|] == [value[i]] + value[i + 1..i + 1 + |search[1..]|];
          assert search == [search[0]] + search[1..];
          assert value[i + |search|..] == value[i + 1 + |search[1..]|..];
        }
      }
    }
  }

  lemma StartsWithSearch(value: string, search: string)
    requires Literal(search)
    ensures Like(value, search + "%") <==>
      |value| >= |search| && value[..|search|] == search && NoLineTerminators(value[|search|..])
  {
    LikeMeansPattern(value, search + "%", false);
    PrefixMatches(search, value, 0);
    if |value| >= |search| {
      assert value[0..|search|] == value[..|search|];
      assert value[0 + |search|..] == value[|search|..];
    }
  }

  // ---------------------------------------------------------------------
  // iLike is like with case ignored.

  function FoldToken(t: Token): Token
  {
    if t.Lit? then Lit(Fold(t.c)) else t
  }

  function FoldPattern(p: seq<Token>): (r: seq<Token>)
    ensures |r| == |p| && forall i :: 0 <= i < |p| ==> r[i] == FoldToken(p[i])
  {
    seq(|p|, i requires 0 <= i < |p| => FoldToken(p[i]))
  }

  /** Ignoring case is matching the folded pattern against the folded value. */
  lemma {:induction false} FoldedMatch(p: seq<Token>, value: string, i: nat)
    requires i <= |value|
    ensures Matches(p, value, i, true) == Matches(FoldPattern(p), FoldAll(value), i, false)
    decreases |p|, |value| - i
  {
    var fv := FoldAll(value);
    if |p| > 0 {
      var fp := FoldPattern(p);
      assert fp[1..] == FoldPattern(p[1..]);
      match p[0]
      case Lit(c) =>
        if i < |value| {
          FoldedMatch(p[1..], value, i + 1);
        }
      case One =>
        if i < |value| {
          FoldedMatch(p[1..], value, i + 1);
        }
      case Run =>
        FoldedMatch(p[1..], value, i);
        if i < |value| {
          FoldedMatch(p, value, i + 1);
        }
      case Start =>
        FoldedMatch(p[1..], value, i);
      case End =>
        FoldedMatch(p[1..], value, i);
    }
  }

  /** `iLike(value, search)` is `like` of both folded: the case of letters
      never matters, and wildcards and anchors are untouched by folding. */
  lemma ILikeIsFoldedLike(value: string, search: string)
    ensures ILike(value, search) == Like(FoldAll(value), FoldAll(search))
  {
    LikeMeansPattern(value, search, true);
    LikeMeansPattern(FoldAll(value), FoldAll(search), false);
    FoldedMatch(Pattern(search), value, 0);
    assert Pattern(FoldAll(search)) == FoldPattern(Pattern(search));
  }

  /** `iLike` accepts everything `like` accepts. */
  lemma {:induction false} LikeImpliesILike(p: seq<Token>, value: string, i: nat)
    requires i <= |value|
    ensures Matches(p, value, i, false) ==> Matches(p, value, i, true)
    decreases |p|, |value| - i
  {
    if |p| > 0 {
      match p[0]
      case Lit(c) =>
        if i < |value| {
          LikeImpliesILike(p[1..], value, i + 1);
        }
      case One =>
        if i < |value| {
          LikeImpliesILike(p[1..], value, i + 1);
        }
      case Run =>
        LikeImpliesILike(p[1..], value, i);
        if i < |value| {
          LikeImpliesILike(p, value, i + 1);
        }
      case Start =>
        LikeImpliesILike(p[1..], value, i);
      case End =>
        LikeImpliesILike(p[1..], value, i);
    }
  }

  lemma LikeThenILike(value: string, search: string)
    ensures Like(value, search) ==> ILike(value, search)
  {
    LikeMeansPattern(value, search, false);
    LikeMeansPattern(value, search, true);
    LikeImpliesILike(Pattern(search), value, 0);
  }

  // ---------------------------------------------------------------------
  // The operator table.

  /** The custom operators, by what they test. */
  datatype Operator = LikeOp | NotLikeOp | ILikeOp | NotILikeOp

  /** `operations`: `$iLike` is an alias of `$ilike`. */
  const Operations: map<string, Operator> :=
    map["$like" := LikeOp, "$notLike" := NotLikeOp, "$ilike" := ILikeOp, "$iLike" := ILikeOp, "$notILike" := NotILikeOp]

  /** The test an operator applies to one queried value; `RegExp.test`
      reads the value as a string. */
  predicate Test(op: Operator, search: string, value: Value)
  {
    match op
    case LikeOp => Like(ToString(value), search)
    case NotLikeOp => !Like(ToString(value), search)
    case ILikeOp => ILike(ToString(value), search)
    case NotILikeOp => !ILike(ToString(value), search)
  }

  /** `$notLike` and `$notILike` negate `$like` and `$ilike`, and `$iLike`
      is `$ilike` under another name. */
  lemma OperatorTable(search: string, value: Value)
    ensures Operations.Keys == {"$like", "$notLike", "$ilike", "$iLike", "$notILike"}
    ensures Test(Operations["$notLike"], search, value) <==> !Test(Operations["$like"], search, value)
    ensures Test(Operations["$notILike"], search, value) <==> !Test(Operations["$ilike"], search, value)
    ensures Operations["$iLike"] == Operations["$ilike"]
    ensures Test(Operations["$like"], search, value) <==> Like(ToString(value), search)
    ensures Test(Operations["$ilike"], search, value) <==> ILike(ToString(value), search)
  {
  }
}
