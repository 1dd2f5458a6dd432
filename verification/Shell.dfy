/**
  The run-once command: the quote-aware splitter and the `{file}` substitution. The splitter is
  a loop over characters; a grammar of quoted groups is its independent definition.
 */
module Shell {
  import opened Results
  import opened Text

  datatype Mode = Plain | Quoted(quote: char)

  datatype State = State(out: seq<string>, cur: string, mode: Mode)

  datatype ShellError = UnterminatedQuote

  predicate IsQuote(c: char) {
    c == '\'' || c == '"'
  }

  /** One character of the loop. */
  function Next(st: State, c: char): State {
    match st.mode
    case Quoted(q) => if c == q then st.(mode := Plain) else st.(cur := st.cur + [c])
    case Plain =>
      if IsQuote(c) then st.(mode := Quoted(c))
      else if c == ' ' then (if st.cur == "" then st else State(st.out + [st.cur], "", Plain))
      else st.(cur := st.cur + [c])
  }

  function Scan(st: State, s: string): State
    decreases |s|
  {
    if s == "" then st else Scan(Next(st, s[0]), s[1..])
  }

  function Finish(st: State): Result<seq<string>, ShellError> {
    if st.mode != Plain then Err(UnterminatedQuote)
    else Ok(if st.cur == "" then st.out else st.out + [st.cur])
  }

  const START: State := State([], "", Plain)

  function Tokens(s: string): Result<seq<string>, ShellError> {
    Finish(Scan(START, s))
  }

  method ParseShellCommand(s: string) returns (r: Result<seq<string>, ShellError>)
    ensures r == Tokens(s)
  {
    var out: seq<string>, cur := [], "";
    var inSingle, inDouble := false, false;
    var i := 0;
    while i < |s|
      invariant 0 <= i <= |s|
      invariant !(inSingle && inDouble)
      invariant Tokens(s) == Finish(Scan(State(out, cur, ModeOf(inSingle, inDouble)), s[i..]))
    {
      var c := s[i];
      if c == '\'' && !inDouble {
        inSingle := !inSingle;
      } else if c == '"' && !inSingle {
        inDouble := !inDouble;
      } else if c == ' ' && !inSingle && !inDouble {
        if |cur| > 0 {
          out := out + [cur];
          cur := "";
        }
      } else {
        cur := cur + [c];
      }
      i := i + 1;
    }
    if inSingle || inDouble { return Err(UnterminatedQuote); }
    if |cur| > 0 { out := out + [cur]; }
    r := Ok(out);
  }

  function ModeOf(inSingle: bool, inDouble: bool): Mode {
    if inSingle then Quoted('\'') else if inDouble then Quoted('"') else Plain
  }

  lemma {:induction false} ScanConcat(st: State, a: string, b: string)
    ensures Scan(st, a + b) == Scan(Scan(st, a), b)
    decreases |a|
  {
    if a == "" {
      assert a + b == b;
    } else {
      assert (a + b)[1..] == a[1..] + b;
      ScanConcat(Next(st, a[0]), a[1..], b);
    }
  }

  /** Tokens already emitted are never looked at again. */
  lemma {:induction false} ScanKeepsOutput(done: seq<string>, st: State, s: string)
    ensures Scan(st.(out := done + st.out), s) == Scan(st, s).(out := done + Scan(st, s).out)
    decreases |s|
  {
    if s != "" {
      var n := Next(st, s[0]);
      assert done + (st.out + [st.cur]) == done + st.out + [st.cur];
      assert Next(st.(out := done + st.out), s[0]) == n.(out := done + n.out);
      ScanKeepsOutput(done, n, s[1..]);
    }
  }

  // ---- the grammar ----

  /** A command is a row of spaces, bare characters and quoted groups. */
  datatype Piece = Space | Bare(c: char) | Group(quote: char, text: string)

  /** `None` when a group never closes. */
  function Lex(s: string): (r: Option<seq<Piece>>)
    decreases |s|
  {
    if s == "" then Some([])
    else if IsQuote(s[0]) then
      (match IndexOf(s[1..], s[0])
       case None => None
       case Some(j) =>
         (match Lex(s[j + 2..])
          case None => None
          case Some(rest) => Some([Group(s[0], s[1..j + 1])] + rest)))
    else
      match Lex(s[1..])
      case None => None
      case Some(rest) => Some([if s[0] == ' ' then Space else Bare(s[0])] + rest)
  }

  /** Spaces separate words; everything else is glued; empty words are dropped. */
  function Words(cur: string, pieces: seq<Piece>): (words: seq<string>)
    ensures forall w :: w in words ==> w != ""
    decreases |pieces|
  {
    if pieces == [] then (if cur == "" then [] else [cur])
    else match pieces[0]
         case Space => (if cur == "" then [] else [cur]) + Words("", pieces[1..])
         case Bare(c) => Words(cur + [c], pieces[1..])
         case Group(_, text) => Words(cur + text, pieces[1..])
  }

  /** Inside a group everything is copied up to the closing quote. */
  lemma {:induction false} ScanGroup(out: seq<string>, cur: string, q: char, s: string)
    ensures match IndexOf(s, q)
            case None => Scan(State(out, cur, Quoted(q)), s).mode == Quoted(q)
            case Some(j) => Scan(State(out, cur, Quoted(q)), s) == Scan(State(out, cur + s[..j], Plain), s[j + 1..])
    decreases |s|
  {
    if s != "" && s[0] != q {
      ScanGroup(out, cur + [s[0]], q, s[1..]);
      var j := IndexOf(s[1..], q);
      if j.Some? {
        assert s[..j.value + 1] == [s[0]] + s[1..][..j.value];
        assert cur + [s[0]] + s[1..][..j.value] == cur + s[..j.value + 1];
        assert s[1..][j.value + 1..] == s[j.value + 2..];
      }
    } else if s != "" {
      assert cur + s[..0] == cur;
    }
  }

  /** From any point outside quotes the loop computes what the grammar says. */
  lemma {:induction false} ScanFollowsGrammar(out: seq<string>, cur: string, s: string)
    ensures Finish(Scan(State(out, cur, Plain), s)) ==
            match Lex(s)
            case None => Err(UnterminatedQuote)
            case Some(pieces) => Ok(out + Words(cur, pieces))
    decreases |s|
  {
    if s == "" {
      assert out + [] == out;
    } else if IsQuote(s[0]) {
      ScanGroup(out, cur, s[0], s[1..]);
      match IndexOf(s[1..], s[0]) {
        case None =>
        case Some(j) =>
          assert s[1..][j + 1..] == s[j + 2..] && s[1..][..j] == s[1..j + 1];
          ScanFollowsGrammar(out, cur + s[1..j + 1], s[j + 2..]);
      }
    } else if s[0] == ' ' {
      var flushed := if cur == "" then [] else [cur];
      assert out + [] == out;
      ScanFollowsGrammar(out + flushed, "", s[1..]);
      match Lex(s[1..]) {
        case None =>
        case Some(rest) => assert out + flushed + Words("", rest) == out + (flushed + Words("", rest));
      }
    } else {
      ScanFollowsGrammar(out, cur + [s[0]], s[1..]);
    }
  }

  /** The splitter fails exactly on unclosed groups, and otherwise returns the words. */
  lemma {:induction false} TokensAreWords(s: string)
    ensures Tokens(s).Err? <==> Lex(s).None?
    ensures Lex(s).Some? ==> Tokens(s) == Ok(Words("", Lex(s).value))
    ensures Tokens(s).Ok? ==> "" !in Tokens(s).value
  {
    ScanFollowsGrammar([], "", s);
    if Lex(s).Some? { assert [] + Words("", Lex(s).value) == Words("", Lex(s).value); }
  }

  // ---- conservation ----

  function TotalLength(words: seq<string>): nat {
    if words == [] then 0 else |words[0]| + TotalLength(words[1..])
  }

  function Spaces(pieces: seq<Piece>): nat {
    if pieces == [] then 0 else (if pieces[0].Space? then 1 else 0) + Spaces(pieces[1..])
  }

  function Groups(pieces: seq<Piece>): nat {
    if pieces == [] then 0 else (if pieces[0].Group? then 1 else 0) + Groups(pieces[1..])
  }

  lemma {:induction false} TotalLengthConcat(a: seq<string>, b: seq<string>)
    ensures TotalLength(a + b) == TotalLength(a) + TotalLength(b)
  {
    if a == [] {
      assert a + b == b;
    } else {
      assert (a + b)[1..] == a[1..] + b;
      TotalLengthConcat(a[1..], b);
    }
  }

  /** The characters of the pieces that end up in words. */
  function TextLength(pieces: seq<Piece>): nat {
    if pieces == [] then 0
    else (match pieces[0]
          case Space => 0
          case Bare(_) => 1
          case Group(_, text) => |text|) + TextLength(pieces[1..])
  }

  lemma {:induction false} WordsKeepText(cur: string, pieces: seq<Piece>)
    ensures TotalLength(Words(cur, pieces)) == |cur| + TextLength(pieces)
    decreases |pieces|
  {
    if pieces != [] {
      match pieces[0] {
        case Space =>
          WordsKeepText("", pieces[1..]);
          TotalLengthConcat(if cur == "" then [] else [cur], Words("", pieces[1..]));
        case Bare(c) => WordsKeepText(cur + [c], pieces[1..]);
        case Group(_, text) => WordsKeepText(cur + text, pieces[1..]);
      }
    }
  }

  lemma {:induction false} PiecesCoverInput(s: string)
    requires Lex(s).Some?
    ensures TextLength(Lex(s).value) + 2 * Groups(Lex(s).value) + Spaces(Lex(s).value) == |s|
    decreases |s|
  {
    if s == "" {
    } else if IsQuote(s[0]) {
      var j := IndexOf(s[1..], s[0]).value;
      PiecesCoverInput(s[j + 2..]);
      PiecesOf(Group(s[0], s[1..j + 1]), Lex(s[j + 2..]).value);
    } else {
      PiecesCoverInput(s[1..]);
      PiecesOf(if s[0] == ' ' then Space else Bare(s[0]), Lex(s[1..]).value);
    }
  }

  lemma {:induction false} PiecesOf(p: Piece, rest: seq<Piece>)
    ensures ([p] + rest)[1..] == rest
    ensures Groups([p] + rest) == (if p.Group? then 1 else 0) + Groups(rest)
    ensures Spaces([p] + rest) == (if p.Space? then 1 else 0) + Spaces(rest)
    ensures TextLength([p] + rest) == (if p.Space? then 0 else if p.Bare? then 1 else |p.text|) + TextLength(rest)
  {
  }

  /** Every character is in a token, is a quote that opens or closes a group, or separates. */
  lemma {:induction false} NothingIsLost(s: string)
    requires Tokens(s).Ok?
    ensures Lex(s).Some?
    ensures TotalLength(Tokens(s).value) + 2 * Groups(Lex(s).value) + Spaces(Lex(s).value) == |s|
  {
    TokensAreWords(s);
    WordsKeepText("", Lex(s).value);
    PiecesCoverInput(s);
  }

  // ---- joining and quoting ----

  /** Commands joined by a space split into the tokens of the first, then of the second. */
  lemma TokensOfJoined(a: string, b: string)
    requires Tokens(a).Ok?
    ensures Tokens(a + " " + b) ==
            match Tokens(b)
            case Err(e) => Err(e)
            case Ok(tb) => Ok(Tokens(a).value + tb)
  {
    ScanConcat(START, a + " ", b);
    ScanConcat(START, a, " ");
    var st := Scan(START, a);
    assert Scan(st, " ") == Next(st, ' ') by { assert " "[1..] == ""; }
    var ta := Tokens(a).value;
    assert Next(st, ' ') == State(ta, "", Plain);
    ScanKeepsOutput(ta, START, b);
    assert ta + [] == ta;
    var sb := Scan(START, b);
    assert ta + (sb.out + [sb.cur]) == ta + sb.out + [sb.cur];
  }

  /** Each character in its own quotes. */
  function Quote(w: string): string {
    if w == "" then ""
    else (if w[0] == '\'' then ['"', w[0], '"'] else ['\'', w[0], '\'']) + Quote(w[1..])
  }

  function QuoteAll(words: seq<string>): string {
    if words == [] then ""
    else if |words| == 1 then Quote(words[0])
    else Quote(words[0]) + " " + QuoteAll(words[1..])
  }

  lemma {:induction false} ScanQuoted(out: seq<string>, cur: string, w: string)
    ensures Scan(State(out, cur, Plain), Quote(w)) == State(out, cur + w, Plain)
    decreases |w|
  {
    if w == "" {
      assert cur + w == cur;
    } else {
      var q := if w[0] == '\'' then '"' else '\'';
      var head := [q, w[0], q];
      ScanConcat(State(out, cur, Plain), head, Quote(w[1..]));
      assert head[1..] == [w[0], q] && head[1..][1..] == [q] && [q][1..] == [];
      assert Scan(State(out, cur, Plain), head) == Scan(State(out, cur, Quoted(q)), head[1..])
          == Scan(State(out, cur + [w[0]], Quoted(q)), [q]) == State(out, cur + [w[0]], Plain);
      ScanQuoted(out, cur + [w[0]], w[1..]);
      assert cur + [w[0]] + w[1..] == cur + w;
    }
  }

  /** Splitting undoes quoting: any list of non-empty arguments can be passed. */
  lemma {:induction false} SplitterInvertsQuoting(words: seq<string>)
    requires "" !in words
    ensures Tokens(QuoteAll(words)) == Ok(words)
    decreases |words|
  {
    if words != [] {
      ScanQuoted([], "", words[0]);
      assert "" + words[0] == words[0] && words[0] in words && [] + [words[0]] == [words[0]];
      assert forall w :: w in words[1..] ==> w in words;
      assert Tokens(Quote(words[0])) == Ok([words[0]]);
      if |words| == 1 {
        assert words == [words[0]];
      } else {
        SplitterInvertsQuoting(words[1..]);
        TokensOfJoined(Quote(words[0]), QuoteAll(words[1..]));
        assert words == [words[0]] + words[1..];
      }
    }
  }

  // ---- substitution ----

  const PLACEHOLDER: string := "{file}"

  predicate AtPlaceholder(s: string) {
    |s| >= 6 && s[0] == '{' && s[1] == 'f' && s[2] == 'i' && s[3] == 'l' && s[4] == 'e' && s[5] == '}'
  }

  /** `strings.ReplaceAll(s, "{file}", file)` */
  function Substitute(s: string, file: string): string
    decreases |s|
  {
    if s == "" then ""
    else if AtPlaceholder(s) then file + Substitute(s[|PLACEHOLDER|..], file)
    else [s[0]] + Substitute(s[1..], file)
  }

  function SubstituteAll(tokens: seq<string>, file: string): (out: seq<string>)
    ensures |out| == |tokens|
    ensures forall i :: 0 <= i < |tokens| ==> out[i] == Substitute(tokens[i], file)
  {
    if tokens == [] then [] else [Substitute(tokens[0], file)] + SubstituteAll(tokens[1..], file)
  }

  /** One argument in, one argument out, whatever the file is called. */
  method ApplyTemplate(tokens: seq<string>, file: string) returns (out: array<string>)
    ensures fresh(out) && out[..] == SubstituteAll(tokens, file)
  {
    out := new string[|tokens|](_ => "");
    var i := 0;
    while i < |tokens|
      invariant 0 <= i <= |tokens|
      invariant forall j :: 0 <= j < i ==> out[j] == Substitute(tokens[j], file)
    {
      out[i] := Substitute(tokens[i], file);
      i := i + 1;
    }
  }

  /** No quote and no space. */
  predicate PlainWord(w: string) {
    forall c :: c in w ==> !IsQuote(c) && c != ' '
  }

  predicate QuoteFree(s: string) {
    forall c :: c in s ==> !IsQuote(c)
  }

  lemma {:induction false} ScanPlainWord(out: seq<string>, cur: string, w: string)
    requires PlainWord(w)
    ensures Scan(State(out, cur, Plain), w) == State(out, cur + w, Plain)
    decreases |w|
  {
    if w == "" {
      assert cur + w == cur;
    } else {
      assert w[0] in w && forall c :: c in w[1..] ==> c in w;
      ScanPlainWord(out, cur + [w[0]], w[1..]);
      assert cur + [w[0]] + w[1..] == cur + w;
    }
  }

  lemma TokensOfWord(w: string)
    requires PlainWord(w)
    ensures Tokens(w) == Ok(if w == "" then [] else [w])
  {
    ScanPlainWord([], "", w);
    assert "" + w == w && [] + [w] == [w];
  }

  lemma {:induction false} SubstituteInWord(w: string, file: string)
    requires PlainWord(w) && PlainWord(file) && file != ""
    ensures PlainWord(Substitute(w, file)) && (Substitute(w, file) == "" <==> w == "")
    decreases |w|
  {
    if w != "" {
      var n := if AtPlaceholder(w) then |PLACEHOLDER| else 1;
      assert w[0] in w && forall c :: c in w[n..] ==> c in w;
      SubstituteInWord(w[n..], file);
    }
  }

  /** No occurrence of the placeholder spans a space. */
  lemma {:induction false} SubstituteAtSpace(w: string, rest: string, file: string)
    requires ' ' !in w
    ensures Substitute(w + " " + rest, file) == Substitute(w, file) + " " + Substitute(rest, file)
    decreases |w|
  {
    var s := w + " " + rest;
    if w == "" {
      assert s[0] == ' ' && s[1..] == rest;
      assert [' '] + Substitute(rest, file) == Substitute(s, file);
    } else {
      assert AtPlaceholder(s) <==> AtPlaceholder(w) by {
        if |w| < 6 { assert s[|w|] == ' '; }
      }
      var n := if AtPlaceholder(w) then |PLACEHOLDER| else 1;
      var head := if AtPlaceholder(w) then file else [w[0]];
      assert s[n..] == w[n..] + " " + rest;
      SubstituteAtSpace(w[n..], rest, file);
      assert head + (Substitute(w[n..], file) + " " + Substitute(rest, file))
          == head + Substitute(w[n..], file) + " " + Substitute(rest, file);
    }
  }

  /**
    For a command without quotes and a file name without spaces and quotes it makes no
    difference whether the placeholder is filled in before or after splitting.
   */
  lemma {:induction false} SubstitutionCommutes(s: string, file: string)
    requires QuoteFree(s) && PlainWord(file) && file != ""
    ensures Tokens(s).Ok? && Tokens(Substitute(s, file)) == Ok(SubstituteAll(Tokens(s).value, file))
    decreases |s|
  {
    match IndexOf(s, ' ') {
      case None =>
        assert PlainWord(s);
        TokensOfWord(s);
        SubstituteInWord(s, file);
        TokensOfWord(Substitute(s, file));
        assert SubstituteAll([s], file) == [Substitute(s, file)] && SubstituteAll([], file) == [];
      case Some(j) =>
        var w, rest := s[..j], s[j + 1..];
        assert s == w + " " + rest;
        assert forall c :: c in w || c in rest ==> c in s;
        TokensOfWord(w);
        SubstituteInWord(w, file);
        TokensOfWord(Substitute(w, file));
        SubstitutionCommutes(rest, file);
        TokensOfJoined(w, rest);
        SubstituteAtSpace(w, rest, file);
        TokensOfJoined(Substitute(w, file), Substitute(rest, file));
        SubstituteAllConcat(Tokens(w).value, Tokens(rest).value, file);
    }
  }

  lemma {:induction false} SubstituteAllConcat(a: seq<string>, b: seq<string>, file: string)
    ensures SubstituteAll(a + b, file) == SubstituteAll(a, file) + SubstituteAll(b, file)
  {
  }
}
