/** The string functions the panel uses, from Go's strings package and from JavaScript, and how printing with
    one of them is undone by reading with another. */
module Text {
  import opened Bytes

  /** Go's unicode.IsSpace. */
  predicate GoSpace(c: char) {
    c == ' ' || '\t' <= c <= '\r' || c == '\U{85}' || c == '\U{A0}' || WideSpace(c)
  }

  /** The white space of ECMAScript: the same set, without U+0085 and with U+FEFF. */
  predicate JsSpace(c: char) {
    c == ' ' || '\t' <= c <= '\r' || c == '\U{A0}' || c == '\U{FEFF}' || WideSpace(c)
  }

  predicate WideSpace(c: char) {
    c == '\U{1680}' || '\U{2000}' <= c <= '\U{200A}' || c == '\U{2028}' || c == '\U{2029}'
    || c == '\U{202F}' || c == '\U{205F}' || c == '\U{3000}'
  }

  /** The panel and the program agree on what white space is, but for two characters; in ASCII it is the usual six. */
  lemma SpacesAgree(c: char)
    ensures c != '\U{85}' && c != '\U{FEFF}' ==> (GoSpace(c) <==> JsSpace(c))
    ensures c < '\U{80}' ==> (GoSpace(c) <==> c in " \t\n\U{B}\U{C}\r")
  {
  }

  predicate Quote(c: char) { c == '"' }

  /** strings.TrimFunc, and with Quote strings.Trim(s, "\""). */
  function Trim(p: char -> bool, s: string): (t: string)
    ensures |t| <= |s|
    decreases |s|
  {
    if s == "" then s
    else if p(s[0]) then Trim(p, s[1..])
    else if p(s[|s| - 1]) then Trim(p, s[..|s| - 1])
    else s
  }

  /** No trimming happens at either end. */
  predicate Bare(p: char -> bool, s: string) { s == "" || (!p(s[0]) && !p(s[|s| - 1])) }

  predicate AllOf(p: char -> bool, s: string) { forall i | 0 <= i < |s| :: p(s[i]) }

  lemma GrowFront(p: char -> bool, s: string, front: string, t: string, back: string)
    requires s != "" && s[1..] == front + t + back && p(s[0]) && AllOf(p, front)
    ensures s == ([s[0]] + front) + t + back && AllOf(p, [s[0]] + front)
  {
    assert s == [s[0]] + s[1..];
  }

  lemma GrowBack(p: char -> bool, s: string, front: string, t: string, back: string)
    requires s != "" && s[..|s| - 1] == front + t + back && p(s[|s| - 1]) && AllOf(p, back)
    ensures s == front + t + (back + [s[|s| - 1]]) && AllOf(p, back + [s[|s| - 1]])
  {
    assert s == s[..|s| - 1] + [s[|s| - 1]];
  }

  /** On every string, only trimmable characters go, from the ends, until none is left there. */
  lemma {:induction false} TrimIsBare(p: char -> bool, s: string) returns (front: string, back: string)
    ensures s == front + Trim(p, s) + back
    ensures AllOf(p, front) && AllOf(p, back) && Bare(p, Trim(p, s))
    decreases |s|
  {
    front, back := "", "";
    if s != "" && p(s[0]) {
      front, back := TrimIsBare(p, s[1..]);
      GrowFront(p, s, front, Trim(p, s), back);
      front := [s[0]] + front;
    } else if s != "" && p(s[|s| - 1]) {
      front, back := TrimIsBare(p, s[..|s| - 1]);
      GrowBack(p, s, front, Trim(p, s), back);
      back := back + [s[|s| - 1]];
    }
  }

  lemma TrimOfBare(p: char -> bool, s: string)
    requires Bare(p, s)
    ensures Trim(p, s) == s
  {
  }

  lemma {:induction false} TrimFront(p: char -> bool, front: string, s: string)
    requires AllOf(p, front)
    ensures Trim(p, front + s) == Trim(p, s)
  {
    if front == "" {
      assert front + s == s;
    } else {
      TrimFront(p, front[1..], s);
      assert (front + s)[1..] == front[1..] + s;
    }
  }

  lemma {:induction false} TrimBack(p: char -> bool, t: string, back: string)
    requires Bare(p, t) && AllOf(p, back)
    ensures Trim(p, t + back) == t
    decreases |back|
  {
    if back == "" {
      assert t + back == t;
      TrimOfBare(p, t);
    } else if t == "" {
      assert t + back == back + "";
      TrimFront(p, back, "");
    } else {
      TrimBack(p, t, back[..|back| - 1]);
      assert (t + back)[..|t + back| - 1] == t + back[..|back| - 1];
    }
  }

  /** With TrimIsBare: Trim(p, s) is the one string without trimmable ends that s is when padded. */
  lemma TrimOfPadded(p: char -> bool, front: string, t: string, back: string)
    requires AllOf(p, front) && Bare(p, t) && AllOf(p, back)
    ensures Trim(p, front + t + back) == t
  {
    assert front + t + back == front + (t + back);
    TrimFront(p, front, t + back);
    TrimBack(p, t, back);
  }

  lemma TrimOfQuoted(s: string)
    requires s != "" && Bare(Quote, s)
    ensures Trim(Quote, "\"" + s + "\"") == s
  {
    var q, t := "\"" + s + "\"", s + "\"";
    assert Quote(q[0]) && q[1..] == t;
    assert t[0] == s[0] && Quote(t[|t| - 1]) && t[..|t| - 1] == s;
    assert Trim(Quote, q) == Trim(Quote, t) == Trim(Quote, s);
  }

  /** strings.Join, and JavaScript's join. */
  function Join(words: seq<string>, sep: string): string {
    if words == [] then ""
    else if |words| == 1 then words[0]
    else words[0] + sep + Join(words[1..], sep)
  }

  predicate Without(s: string, c: char) { forall i | 0 <= i < |s| :: s[i] != c }

  /** How many characters come before the first c. */
  function UpTo(s: string, c: char): (n: nat)
    ensures n <= |s|
  {
    if s == "" || s[0] == c then 0 else 1 + UpTo(s[1..], c)
  }

  lemma {:induction false} UpToStops(s: string, c: char, rest: string)
    requires Without(s, c)
    ensures UpTo(s, c) == |s|
    ensures UpTo(s + [c] + rest, c) == |s|
  {
    if s != "" {
      UpToStops(s[1..], c, rest);
      assert (s + [c] + rest)[1..] == s[1..] + [c] + rest;
    }
  }

  lemma {:induction false} UpToIsFirst(s: string, c: char)
    ensures Without(s[..UpTo(s, c)], c)
    ensures UpTo(s, c) < |s| ==> s[UpTo(s, c)] == c
  {
    if s != "" && s[0] != c {
      UpToIsFirst(s[1..], c);
      var n := UpTo(s[1..], c);
      assert s[..1 + n] == [s[0]] + s[1..][..n];
    }
  }

  /** strings.Split(s, sep) for a one-character separator. */
  function Split(s: string, c: char): (words: seq<string>)
    ensures words != []
    decreases |s|
  {
    var n := UpTo(s, c);
    if n == |s| then [s] else [s[..n]] + Split(s[n + 1..], c)
  }

  lemma {:induction false} SplitOfJoin(words: seq<string>, c: char)
    requires words != []
    requires forall i | 0 <= i < |words| :: Without(words[i], c)
    ensures Split(Join(words, [c]), c) == words
    decreases |words|
  {
    var w, rest := words[0], Join(words[1..], [c]);
    UpToStops(w, c, rest);
    if |words| > 1 {
      SplitOfJoin(words[1..], c);
      var s := w + [c] + rest;
      assert s[..|w|] == w && s[|w| + 1..] == rest;
    }
  }

  /** And joining undoes splitting, on every string: with SplitOfJoin, Split(s, c) is the one list of words
      without c that joins to s. */
  lemma {:induction false} JoinOfSplit(s: string, c: char)
    ensures Join(Split(s, c), [c]) == s
    ensures forall i | 0 <= i < |Split(s, c)| :: Without(Split(s, c)[i], c)
    decreases |s|
  {
    UpToIsFirst(s, c);
    var n := UpTo(s, c);
    if n < |s| {
      JoinOfSplit(s[n + 1..], c);
      assert Split(s, c)[1..] == Split(s[n + 1..], c);
      assert s == s[..n] + [c] + s[n + 1..];
    } else {
      assert s[..n] == s;
    }
  }

  /** The leading characters that are not white space. */
  function WordLen(s: string): (n: nat)
    ensures n <= |s|
  {
    if s == "" || GoSpace(s[0]) then 0 else 1 + WordLen(s[1..])
  }

  /** strings.Fields */
  function Fields(s: string): seq<string>
    decreases |s|
  {
    if s == "" then []
    else if GoSpace(s[0]) then Fields(s[1..])
    else [s[..WordLen(s)]] + Fields(s[WordLen(s)..])
  }

  /** One whole field. */
  predicate Word(s: string) { s != "" && forall i | 0 <= i < |s| :: !GoSpace(s[i]) }

  lemma {:induction false} WordLenStops(w: string, rest: string)
    requires forall i | 0 <= i < |w| :: !GoSpace(w[i])
    requires rest == "" || GoSpace(rest[0])
    ensures WordLen(w + rest) == |w|
  {
    if w == "" {
      assert w + rest == rest;
    } else {
      WordLenStops(w[1..], rest);
      assert (w + rest)[1..] == w[1..] + rest;
    }
  }

  lemma {:induction false} FieldsOfJoin(words: seq<string>)
    requires forall i | 0 <= i < |words| :: Word(words[i])
    ensures Fields(Join(words, " ")) == words
    decreases |words|
  {
    if words != [] {
      var w := words[0];
      var tail := if |words| == 1 then "" else " " + Join(words[1..], " ");
      var s := Join(words, " ");
      assert s == w + tail;
      WordLenStops(w, tail);
      assert s[..|w|] == w && s[|w|..] == tail;
      FieldsOfJoin(words[1..]);
      if |words| > 1 {
        assert tail[1..] == Join(words[1..], " ");
      }
    }
  }

  /** What is left of s without its white space. */
  function Ink(s: string): string {
    if s == "" then "" else (if GoSpace(s[0]) then "" else [s[0]]) + Ink(s[1..])
  }

  lemma {:induction false} WordLenIsWord(s: string)
    ensures forall i | 0 <= i < WordLen(s) :: !GoSpace(s[i])
    ensures WordLen(s) < |s| ==> GoSpace(s[WordLen(s)])
  {
    if s != "" && !GoSpace(s[0]) {
      WordLenIsWord(s[1..]);
      assert forall i | 1 <= i < |s| :: s[i] == s[1..][i - 1];
    }
  }

  lemma {:induction false} InkOfWord(w: string, rest: string)
    requires forall i | 0 <= i < |w| :: !GoSpace(w[i])
    ensures Ink(w + rest) == w + Ink(rest)
  {
    if w == "" {
      assert w + rest == rest;
    } else {
      InkOfWord(w[1..], rest);
      assert (w + rest)[1..] == w[1..] + rest;
    }
  }

  /** On every string, the fields are words, and nothing but white space is lost between them. */
  lemma {:induction false} FieldsAreWords(s: string)
    ensures forall i | 0 <= i < |Fields(s)| :: Word(Fields(s)[i])
    ensures Flatten(Fields(s)) == Ink(s)
    decreases |s|
  {
    if s != "" {
      if GoSpace(s[0]) {
        FieldsAreWords(s[1..]);
      } else {
        var w, rest := s[..WordLen(s)], s[WordLen(s)..];
        WordLenIsWord(s);
        InkOfWord(w, rest);
        assert s == w + rest;
        FieldsAreWords(rest);
      }
    }
  }

  lemma {:induction false} FieldsSkip(gap: string, s: string)
    requires AllOf(GoSpace, gap)
    ensures Fields(gap + s) == Fields(s)
  {
    if gap == "" {
      assert gap + s == s;
    } else {
      FieldsSkip(gap[1..], s);
      assert (gap + s)[1..] == gap[1..] + s;
    }
  }

  /** Any white space separates fields. */
  lemma FieldsCons(w: string, gap: string, s: string)
    requires Word(w) && gap != "" && AllOf(GoSpace, gap)
    ensures Fields(w + (gap + s)) == [w] + Fields(s)
  {
    var all := w + (gap + s);
    WordLenStops(w, gap + s);
    assert all[0] == w[0] && all[..|w|] == w && all[|w|..] == gap + s;
    FieldsSkip(gap, s);
  }

  /** Trimmed, with the empty ones left out: map trim, filter non-empty. */
  function Trimmed(p: char -> bool, words: seq<string>): seq<string> {
    if words == [] then []
    else (if Trim(p, words[0]) == "" then [] else [Trim(p, words[0])]) + Trimmed(p, words[1..])
  }

  lemma {:induction false} TrimmedOfBare(p: char -> bool, words: seq<string>)
    requires forall i | 0 <= i < |words| :: words[i] != "" && Bare(p, words[i])
    ensures Trimmed(p, words) == words
  {
    if words != [] {
      TrimOfBare(p, words[0]);
      TrimmedOfBare(p, words[1..]);
    }
  }

  lemma {:induction false} TrimmedSnoc(p: char -> bool, words: seq<string>, w: string)
    ensures Trimmed(p, words + [w]) == Trimmed(p, words) + (if Trim(p, w) == "" then [] else [Trim(p, w)])
  {
    if words == [] {
      assert words + [w] == [w];
    } else {
      TrimmedSnoc(p, words[1..], w);
      assert (words + [w])[1..] == words[1..] + [w];
      Assoc(Trimmed(p, words[..1]), Trimmed(p, words[1..]), if Trim(p, w) == "" then [] else [Trim(p, w)]);
      assert words[..1] == [words[0]] && words[..1][1..] == [];
    }
  }

  /** JavaScript's s.split(/\n+/): at every maximal run of newlines. */
  function SplitRuns(s: string): seq<string>
    decreases |s|
  {
    var n := UpTo(s, '\n');
    if n == |s| then [s] else [s[..n]] + SplitRuns(SkipNewlines(s[n + 1..]))
  }

  function SkipNewlines(s: string): (t: string)
    ensures |t| <= |s|
  {
    if s != "" && s[0] == '\n' then SkipNewlines(s[1..]) else s
  }

  lemma {:induction false} SkippingIsInvisible(s: string)
    ensures Trimmed(JsSpace, Split(SkipNewlines(s), '\n')) == Trimmed(JsSpace, Split(s, '\n'))
    decreases |s|
  {
    if s != "" && s[0] == '\n' {
      SkippingIsInvisible(s[1..]);
      assert Split(s, '\n') == [""] + Split(s[1..], '\n');
    }
  }

  /** Once empty lines are filtered out, splitting at runs of newlines is splitting at newlines. */
  lemma {:induction false} SplitRunsIsSplit(s: string)
    ensures Trimmed(JsSpace, SplitRuns(s)) == Trimmed(JsSpace, Split(s, '\n'))
    decreases |s|
  {
    var n := UpTo(s, '\n');
    if n == |s| {
      assert SplitRuns(s) == [s] == Split(s, '\n');
    } else {
      var rest := s[n + 1..];
      SplitRunsIsSplit(SkipNewlines(rest));
      SkippingIsInvisible(rest);
    }
  }
}
