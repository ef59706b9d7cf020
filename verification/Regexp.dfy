/** The regular expression matcher of user/grep.c, proved against the language that its
    patterns denote. Strings are sequences without the terminating NUL. */
module Regexp {

  // ---- What a pattern means

  datatype Item = Literal(c: char) | Any | Star(c: char)

  /** A pattern: what is repeated, matched once or matched by any character, and whether the
      match must start or stop at the ends of the text. */
  datatype Pattern = Pattern(anchored: bool, items: seq<Item>, toEnd: bool)

  /** The items of a pattern after an optional leading ^. A * stars the character before it
      and is otherwise itself; a $ is special only at the very end. */
  function Items(re: string): (items: seq<Item>) {
    if re == "" || re == "$" then []
    else if |re| >= 2 && re[1] == '*' then [Star(re[0])] + Items(re[2..])
    else [if re[0] == '.' then Any else Literal(re[0])] + Items(re[1..])
  }

  function ToEnd(re: string): (e: bool) {
    if re == "" then false
    else if re == "$" then true
    else if |re| >= 2 && re[1] == '*' then ToEnd(re[2..])
    else ToEnd(re[1..])
  }

  function Parse(re: string): Pattern {
    if re != "" && re[0] == '^' then Pattern(true, Items(re[1..]), ToEnd(re[1..]))
    else Pattern(false, Items(re), ToEnd(re))
  }

  function Accepts(c: char, x: char): bool {
    c == '.' || c == x
  }

  /** The part of the text that one item stands for. */
  ghost predicate Fits(item: Item, part: string) {
    match item
    case Literal(c) => part == [c]
    case Any => |part| == 1
    case Star(c) => forall i :: 0 <= i < |part| ==> Accepts(c, part[i])
  }

  ghost function Concat(parts: seq<string>): string {
    if parts == [] then "" else parts[0] + Concat(parts[1..])
  }

  /** w is in the language of the items: it can be cut into one fitting part for each. */
  ghost predicate Cut(items: seq<Item>, parts: seq<string>, w: string) {
    && |parts| == |items| && Concat(parts) == w
    && forall k :: 0 <= k < |items| ==> Fits(items[k], parts[k])
  }

  ghost predicate InLanguage(items: seq<Item>, w: string) {
    exists parts :: Cut(items, parts, w)
  }

  /** Some substring of the text is in the language and touches the ends it must touch. */
  ghost predicate Matches(p: Pattern, text: string) {
    exists i, j :: 0 <= i <= j <= |text| && InLanguage(p.items, text[i..j])
                   && (p.anchored ==> i == 0) && (p.toEnd ==> j == |text|)
  }

  // ---- The matcher as functions

  function Here(re: string, text: string): bool
    decreases |re|, |text|, 0
  {
    if re == "" then true
    else if |re| >= 2 && re[1] == '*' then StarHere(re[0], re[2..], text)
    else if re == "$" then text == ""
    else text != "" && (re[0] == '.' || re[0] == text[0]) && Here(re[1..], text[1..])
  }

  function StarHere(c: char, re: string, text: string): bool
    decreases |re|, |text|, 1
  {
    Here(re, text) || (text != "" && (text[0] == c || c == '.') && StarHere(c, re, text[1..]))
  }

  // ---- The matcher as it runs

  /** matchhere returns true exactly when some beginning of the text is in the language. */
  method MatchHere(re: string, text: string) returns (r: bool)
    ensures r <==> exists j :: Prefix(re, text, j)
    decreases |re|, |text|, 0
  {
    HereExact(re, text);
    if re == "" {
      return true;
    }
    if |re| >= 2 && re[1] == '*' {
      r := MatchStar(re[0], re[2..], text);
      StarExact(re[0], re[2..], text);
      return;
    }
    if re == "$" {
      return text == "";
    }
    if text != "" && (re[0] == '.' || re[0] == text[0]) {
      r := MatchHere(re[1..], text[1..]);
      HereExact(re[1..], text[1..]);
      return;
    }
    return false;
  }

  /** matchstar returns true exactly when some beginning of the text is a run of what c accepts
      followed by something in the language of re: trying the shortest run first loses nothing. */
  method MatchStar(c: char, re: string, text: string) returns (r: bool)
    ensures r <==> exists j :: StarredPrefix(c, re, text, j)
    decreases |re|, |text|, 1
  {
    StarExact(c, re, text);
    var rest := text;
    while true
      invariant |rest| <= |text| && StarHere(c, re, text) == StarHere(c, re, rest)
      decreases |rest|
    {
      r := MatchHere(re, rest);
      HereExact(re, rest);
      if r {
        return true;
      }
      if rest == "" {
        return false;
      }
      var x := rest[0];
      rest := rest[1..];
      if !(x == c || c == '.') {
        return false;
      }
    }
  }

  /** match returns true exactly when the text has a substring that the pattern denotes. */
  method Match(re: string, text: string) returns (r: bool)
    ensures r <==> Matches(Parse(re), text)
  {
    if re != "" && re[0] == '^' {
      r := MatchHere(re[1..], text);
      HereExact(re[1..], text);
      MatchesAnchored(re, text);
      return;
    }
    var at := 0;
    while true
      invariant 0 <= at <= |text|
      invariant forall i :: 0 <= i < at ==> !Here(re, text[i..])
      decreases |text| - at
    {
      r := MatchHere(re, text[at..]);
      HereExact(re, text[at..]);
      if r {
        MatchesAt(re, text, at);
        return true;
      }
      if at == |text| {
        break;
      }
      at := at + 1;
    }
    MatchesNowhere(re, text);
    return false;
  }

  // ---- The matcher finds exactly the prefixes in the language

  /** A prefix of text up to j that the pattern re can end its match with. */
  ghost predicate Prefix(re: string, text: string, j: int) {
    0 <= j <= |text| && InLanguage(Items(re), text[..j]) && (ToEnd(re) ==> j == |text|)
  }

  lemma EmptyPattern(text: string)
    ensures Prefix("", text, 0) && (text == "" <==> Prefix("$", text, |text|))
  {
    assert Cut([], [], "");
    if text == "" {
      assert text[..0] == "";
    }
    if Prefix("$", text, |text|) {
      var parts :| Cut([], parts, text[..|text|]);
      assert text[..|text|] == text;
    }
  }

  /** Cutting off the first part. */
  lemma CutFirst(items: seq<Item>, parts: seq<string>, w: string)
    requires items != [] && Cut(items, parts, w)
    ensures Fits(items[0], parts[0]) && |parts[0]| <= |w| && parts[0] == w[..|parts[0]|]
    ensures Cut(items[1..], parts[1..], w[|parts[0]|..])
  {}

  lemma CutAdd(item: Item, part: string, items: seq<Item>, parts: seq<string>, w: string)
    requires Fits(item, part) && Cut(items, parts, w)
    ensures Cut([item] + items, [part] + parts, part + w)
  {
    assert ([part] + parts)[1..] == parts;
  }

  /** An item that takes one character takes it off the text and leaves the rest. */
  lemma OnePrefix(item: Item, items: seq<Item>, text: string, j: int)
    requires !item.Star? && 0 <= j <= |text|
    ensures InLanguage([item] + items, text[..j]) <==>
      j > 0 && Fits(item, [text[0]]) && InLanguage(items, text[1..][..j - 1])
  {
    var all := [item] + items;
    assert all[1..] == items;
    if InLanguage(all, text[..j]) {
      var parts :| Cut(all, parts, text[..j]);
      CutFirst(all, parts, text[..j]);
      assert text[..j][1..] == text[1..][..j - 1];
      assert parts[0] == [text[0]];
    }
    if j > 0 && Fits(item, [text[0]]) && InLanguage(items, text[1..][..j - 1]) {
      var parts :| Cut(items, parts, text[1..][..j - 1]);
      CutAdd(item, [text[0]], items, parts, text[1..][..j - 1]);
      assert [text[0]] + text[1..][..j - 1] == text[..j];
    }
  }

  lemma StarTakes(c: char, items: seq<Item>, parts: seq<string>, w: string)
    requires Cut([Star(c)] + items, parts, w)
    ensures InLanguage(items, w) || (w != "" && Accepts(c, w[0]) && InLanguage([Star(c)] + items, w[1..]))
  {
    var all := [Star(c)] + items;
    assert all[1..] == items;
    CutFirst(all, parts, w);
    var first := parts[0];
    if first == "" {
      assert w[0..] == w;
    } else {
      assert Accepts(c, first[0]);
      CutAdd(Star(c), first[1..], items, parts[1..], w[|first|..]);
      assert first[1..] + w[|first|..] == w[1..];
    }
  }

  lemma StarTakesNone(c: char, items: seq<Item>, w: string)
    requires InLanguage(items, w)
    ensures InLanguage([Star(c)] + items, w)
  {
    var parts :| Cut(items, parts, w);
    CutAdd(Star(c), "", items, parts, w);
    assert "" + w == w;
  }

  lemma StarGrows(c: char, items: seq<Item>, parts: seq<string>, x: char, w: string)
    requires Accepts(c, x) && Cut([Star(c)] + items, parts, w)
    ensures InLanguage([Star(c)] + items, [x] + w)
  {
    var all := [Star(c)] + items;
    assert all[1..] == items;
    CutFirst(all, parts, w);
    var first := parts[0];
    CutAdd(Star(c), [x] + first, items, parts[1..], w[|first|..]);
    assert [x] + first + w[|first|..] == [x] + w;
  }

  /** A star takes nothing, or one character that it accepts and then goes on. */
  lemma StarPrefix(c: char, items: seq<Item>, w: string)
    ensures InLanguage([Star(c)] + items, w) <==>
      InLanguage(items, w) || (w != "" && Accepts(c, w[0]) && InLanguage([Star(c)] + items, w[1..]))
  {
    if InLanguage([Star(c)] + items, w) {
      var parts :| Cut([Star(c)] + items, parts, w);
      StarTakes(c, items, parts, w);
    }
    if InLanguage(items, w) {
      StarTakesNone(c, items, w);
    }
    if w != "" && Accepts(c, w[0]) && InLanguage([Star(c)] + items, w[1..]) {
      var parts :| Cut([Star(c)] + items, parts, w[1..]);
      StarGrows(c, items, parts, w[0], w[1..]);
      assert [w[0]] + w[1..] == w;
    }
  }

  lemma {:induction false} HereExact(re: string, text: string)
    ensures Here(re, text) <==> exists j :: Prefix(re, text, j)
    decreases |re|, |text|, 0
  {
    if re == "" || re == "$" {
      EmptyPattern(text);
      if re == "$" {
        assert forall j :: Prefix(re, text, j) ==> j == |text|;
      }
    } else if |re| >= 2 && re[1] == '*' {
      StarExact(re[0], re[2..], text);
      forall j ensures Prefix(re, text, j) <==> StarredPrefix(re[0], re[2..], text, j) {}
    } else {
      OneExact(re, text);
    }
  }

  ghost predicate StarredPrefix(c: char, re: string, text: string, j: int) {
    0 <= j <= |text| && InLanguage([Star(c)] + Items(re), text[..j]) && (ToEnd(re) ==> j == |text|)
  }

  lemma {:induction false} OneExact(re: string, text: string)
    requires re != "" && re != "$" && !(|re| >= 2 && re[1] == '*')
    ensures Here(re, text) <==> exists j :: Prefix(re, text, j)
    decreases |re|, |text|, 0, 0
  {
    var item := if re[0] == '.' then Any else Literal(re[0]);
    if text != "" {
      HereExact(re[1..], text[1..]);
    }
    forall j | 0 <= j <= |text|
      ensures Prefix(re, text, j) <==>
        text != "" && Fits(item, [text[0]]) && Prefix(re[1..], text[1..], j - 1)
    {
      OnePrefix(item, Items(re[1..]), text, j);
    }
    if Here(re, text) {
      var j :| Prefix(re[1..], text[1..], j);
      assert Prefix(re, text, j + 1);
    }
  }

  lemma {:induction false} StarExact(c: char, re: string, text: string)
    ensures StarHere(c, re, text) <==> exists j :: StarredPrefix(c, re, text, j)
    decreases |re|, |text|, 1
  {
    HereExact(re, text);
    if text != "" {
      StarExact(c, re, text[1..]);
    }
    forall j | 0 <= j <= |text|
      ensures StarredPrefix(c, re, text, j) <==>
        || Prefix(re, text, j)
        || (text != "" && Accepts(c, text[0]) && StarredPrefix(c, re, text[1..], j - 1))
    {
      StarPrefix(c, Items(re), text[..j]);
      if j > 0 { assert text[..j][1..] == text[1..][..j - 1]; }
    }
    if text != "" && Accepts(c, text[0]) && StarHere(c, re, text[1..]) {
      var j :| StarredPrefix(c, re, text[1..], j);
      assert StarredPrefix(c, re, text, j + 1);
    }
  }

  // ---- From prefixes to substrings

  lemma MatchesAt(re: string, text: string, i: nat)
    requires (re == "" || re[0] != '^') && i <= |text| && Here(re, text[i..])
    ensures Matches(Parse(re), text)
  {
    HereExact(re, text[i..]);
    var j :| Prefix(re, text[i..], j);
    assert text[i..][..j] == text[i..i + j];
  }

  lemma MatchesNowhere(re: string, text: string)
    requires (re == "" || re[0] != '^') && forall i :: 0 <= i <= |text| ==> !Here(re, text[i..])
    ensures !Matches(Parse(re), text)
  {
    forall i, j | 0 <= i <= j <= |text| && InLanguage(Items(re), text[i..j]) ensures ToEnd(re) && j != |text| {
      HereExact(re, text[i..]);
      assert text[i..][..j - i] == text[i..j];
      assert !Prefix(re, text[i..], j - i);
    }
  }

  lemma MatchesAnchored(re: string, text: string)
    requires re != "" && re[0] == '^'
    ensures Here(re[1..], text) <==> Matches(Parse(re), text)
  {
    HereExact(re[1..], text);
    forall j | 0 <= j <= |text| ensures text[0..j] == text[..j] {}
    if Here(re[1..], text) {
      var j :| Prefix(re[1..], text, j);
      assert InLanguage(Parse(re).items, text[0..j]);
    }
    if Matches(Parse(re), text) {
      var i, j :| 0 <= i <= j <= |text| && InLanguage(Parse(re).items, text[i..j])
                  && (Parse(re).anchored ==> i == 0) && (Parse(re).toEnd ==> j == |text|);
      assert Prefix(re[1..], text, j);
    }
  }
}
