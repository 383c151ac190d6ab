/** The text of a one-block directory: "./self/../parent" followed by "/name/inode" for each entry, in the order of
    insertion (asst3/assignment3/src/sfs.c:312-317, 435-443, 614-620, 657-674, 1138-1144). */
module DirText {
  import opened Blocks

  type Text = seq<byte>

  const SLASH: byte := 47
  const DOT: byte := 46

  // ---------------------------------------------------------------- decimal numbers, as printed by "%i"

  function Decimal(n: nat): (t: Text)
    ensures t != [] && AllDigits(t)
  {
    if n < 10 then [48 + n] else Decimal(n / 10) + [48 + n % 10]
  }

  predicate AllDigits(t: Text) {
    forall i :: 0 <= i < |t| ==> 48 <= t[i] <= 57
  }

  /** The number a text of digits stands for, most significant digit first. */
  function DigitsValue(t: Text): int {
    if t == [] then 0 else 10 * DigitsValue(t[..|t| - 1]) + (t[|t| - 1] as int - 48)
  }

  /** The digits of n without leading zeroes. */
  predicate Prints(t: Text, n: int) {
    t != [] && AllDigits(t) && DigitsValue(t) == n && (|t| > 1 ==> t[0] != 48)
  }

  /** "%i" prints the one text of digits without leading zeroes that stands for n. */
  lemma {:induction false} DecimalPrints(n: nat)
    ensures Prints(Decimal(n), n) && (n > 0 ==> Decimal(n)[0] != 48)
  {
    var t := Decimal(n);
    if n >= 10 {
      DecimalPrints(n / 10);
      assert t[..|t| - 1] == Decimal(n / 10);
    } else {
      assert t[..0] == [];
    }
  }

  lemma {:induction false} PrintsIff(t: Text, n: nat)
    ensures Prints(t, n) <==> t == Decimal(n)
  {
    DecimalPrints(n);
    if Prints(t, n) {
      var k := |t| - 1;
      if k > 0 {
        PositiveValue(t[..k]);
        assert DigitsValue(t[..k]) == n / 10 && t[k] as int - 48 == n % 10;
        PrintsIff(t[..k], n / 10);
      } else {
        assert t[..0] == [];
      }
      assert t == t[..k] + [t[k]];
    }
  }

  lemma {:induction false} PositiveValue(t: Text)
    requires t != [] && AllDigits(t) && t[0] != 48
    ensures DigitsValue(t) > 0
  {
    if |t| > 1 {
      PositiveValue(t[..|t| - 1]);
    } else {
      assert t[..0] == [];
    }
  }

  // ---------------------------------------------------------------- words separated by slashes

  /** A word: what lies between two slashes. */
  predicate Word(w: Text) {
    w != [] && SLASH !in w && 0 !in w
  }

  predicate Words(ws: seq<Text>) {
    forall i :: 0 <= i < |ws| ==> Word(ws[i])
  }

  function Slashed(ws: seq<Text>): Text {
    if ws == [] then [] else [SLASH] + ws[0] + Slashed(ws[1..])
  }

  lemma {:induction false} SlashedAppend(us: seq<Text>, ws: seq<Text>)
    ensures Slashed(us + ws) == Slashed(us) + Slashed(ws)
  {
    if us == [] {
      assert us + ws == ws;
    } else {
      SlashedAppend(us[1..], ws);
      assert (us + ws)[1..] == us[1..] + ws;
    }
  }

  // ---------------------------------------------------------------- strstr and removeSubstring

  predicate OccursAt(s: Text, pat: Text, k: int) {
    0 <= k <= |s| - |pat| && s[k..k + |pat|] == pat
  }

  /** strstr: the first occurrence at or after `from`, or -1. */
  method Strstr(s: Text, pat: Text, from: nat) returns (k: int)
    requires from <= |s|
    ensures k == First(s, pat, from)
  {
    k := from;
    while k <= |s| - |pat|
      invariant from <= k <= |s| + 1
      invariant First(s, pat, from) == First(s, pat, k)
    {
      if s[k..k + |pat|] == pat {
        return;
      }
      k := k + 1;
    }
    k := -1;
  }

  function First(s: Text, pat: Text, from: nat): (k: int)
    ensures k == -1 || (from <= k && OccursAt(s, pat, k))
    ensures forall j :: from <= j && OccursAt(s, pat, j) ==> 0 <= k <= j
    decreases |s| - from
  {
    if from > |s| - |pat| then -1
    else if OccursAt(s, pat, from) then from
    else First(s, pat, from + 1)
  }

  /** What the loop of removeSubstring leaves, searching from position `from` on. */
  function Removed(s: Text, pat: Text, from: nat): Text
    requires pat != []
    decreases |s|
  {
    var k := First(s, pat, from);
    if k == -1 then s else Removed(s[..k] + s[k + |pat|..], pat, k)
  }

  method RemoveSubstring(s: Text, pat: Text) returns (r: Text)
    requires pat != []
    ensures r == Removed(s, pat, 0)
  {
    r := s;
    var k := Strstr(r, pat, 0);
    ghost var from: nat := 0;
    while k >= 0
      invariant from <= |r| && k == First(r, pat, from)
      invariant Removed(r, pat, from) == Removed(s, pat, 0)
      decreases |r|
    {
      r := r[..k] + r[k + |pat|..];
      from := k;
      k := Strstr(r, pat, k);
    }
  }

  // ---------------------------------------------------------------- where an entry can occur

  /** An occurrence of "/name/..." in slash-separated words starts at a whole word equal to name. */
  lemma {:induction false} OccursAtWord(ws: seq<Text>, name: Text, tail: Text, k: int) returns (j: int)
    requires Words(ws) && Word(name)
    requires OccursAt(Slashed(ws), [SLASH] + name + [SLASH] + tail, k)
    ensures 0 <= j < |ws| && ws[j] == name && k == |Slashed(ws[..j])|
  {
    var pat := [SLASH] + name + [SLASH] + tail;
    var s := Slashed(ws);
    var w, rest := ws[0], Slashed(ws[1..]);
    assert s == [SLASH] + w + rest;
    assert forall i :: 0 <= i < |pat| ==> s[k + i] == pat[i];
    assert s[k] == SLASH && forall i :: 1 <= i <= |w| ==> s[i] == w[i - 1];
    if k == 0 {
      WordMatches(w, rest, name, tail, ws[1..]);
      j := 0;
    } else if k <= |w| {
      assert false;
    } else {
      var k' := k - 1 - |w|;
      assert rest[k'..k' + |pat|] == s[k..k + |pat|];
      var j' := OccursAtWord(ws[1..], name, tail, k');
      j := j' + 1;
      assert ws[..j] == [w] + ws[1..][..j'];
      assert Slashed(ws[..j]) == [SLASH] + w + Slashed(ws[1..][..j']);
    }
  }

  lemma WordMatches(w: Text, rest: Text, name: Text, tail: Text, ws: seq<Text>)
    requires Word(w) && Word(name) && rest == Slashed(ws)
    requires OccursAt([SLASH] + w + rest, [SLASH] + name + [SLASH] + tail, 0)
    ensures w == name
  {
    var s, pat := [SLASH] + w + rest, [SLASH] + name + [SLASH] + tail;
    assert forall i :: 0 <= i < |pat| ==> s[i] == pat[i];
    assert forall i :: 0 <= i < |w| ==> s[1 + i] == w[i];
    assert forall i :: 0 <= i < |name| ==> pat[1 + i] == name[i];
    assert pat[1 + |name|] == SLASH && (rest != [] ==> s[1 + |w|] == SLASH);
    assert s[1 + |name|] == SLASH;
    if |w| < |name| {
      assert false;
    } else if |name| < |w| {
      assert false;
    } else {
      forall i | 0 <= i < |w|
        ensures w[i] == name[i]
      {
        assert s[1 + i] == pat[1 + i];
      }
    }
  }

  // ---------------------------------------------------------------- directories

  datatype DirEntry = DirEntry(name: Text, ino: nat)

  /** Every name is a word, and no two are the same. */
  predicate GoodEntries(es: seq<DirEntry>) {
    && (forall i :: 0 <= i < |es| ==> Word(es[i].name))
    && (forall i, j :: 0 <= i < j < |es| ==> es[i].name != es[j].name)
  }

  predicate WordNames(es: seq<DirEntry>) {
    forall i :: 0 <= i < |es| ==> Word(es[i].name)
  }

  lemma GoodWords(es: seq<DirEntry>)
    requires GoodEntries(es)
    ensures WordNames(es)
  {
  }

  /** What "/%s/%i" prints. */
  function Item(e: DirEntry): Text {
    [SLASH] + e.name + [SLASH] + Decimal(e.ino)
  }

  function EntryWords(es: seq<DirEntry>): (ws: seq<Text>)
    ensures |ws| == 2 * |es|
    ensures forall i :: 0 <= i < |es| ==> ws[2 * i] == es[i].name && ws[2 * i + 1] == Decimal(es[i].ino)
  {
    if es == [] then [] else [es[0].name, Decimal(es[0].ino)] + EntryWords(es[1..])
  }

  /** The words of a directory after the leading "." */
  function DirWords(self: nat, parent: nat, es: seq<DirEntry>): seq<Text> {
    [Decimal(self), [DOT, DOT], Decimal(parent)] + EntryWords(es)
  }

  /** The text of a directory. */
  function Directory(self: nat, parent: nat, es: seq<DirEntry>): Text {
    [DOT] + Slashed(DirWords(self, parent, es))
  }

  lemma DirWordsGood(self: nat, parent: nat, es: seq<DirEntry>)
    requires WordNames(es)
    ensures Words(DirWords(self, parent, es))
  {
    var ws := DirWords(self, parent, es);
    forall i | 0 <= i < |ws|
      ensures Word(ws[i])
    {
      if i >= 3 {
        assert ws[i] == EntryWords(es)[i - 3];
        var e := (i - 3) / 2;
        assert EntryWords(es)[2 * e] == es[e].name && EntryWords(es)[2 * e + 1] == Decimal(es[e].ino);
      }
    }
  }

  lemma {:induction false} EntryWordsCons(es: seq<DirEntry>)
    requires es != []
    ensures EntryWords(es) == [es[0].name, Decimal(es[0].ino)] + EntryWords(es[1..])
  {
  }

  lemma {:induction false} EntryWordsAppend(es: seq<DirEntry>, fs: seq<DirEntry>)
    ensures EntryWords(es + fs) == EntryWords(es) + EntryWords(fs)
  {
    hide Decimal, EntryWords;
    if es == [] {
      assert es + fs == fs && EntryWords(es) == [];
    } else {
      EntryWordsAppend(es[1..], fs);
      assert (es + fs)[1..] == es[1..] + fs;
      EntryWordsCons(es);
      EntryWordsCons(es + fs);
    }
  }

  lemma ItemIsSlashed(e: DirEntry)
    ensures Slashed(EntryWords([e])) == Item(e)
  {
    var ws := EntryWords([e]);
    assert ws == [e.name, Decimal(e.ino)];
    assert ws[1..] == [Decimal(e.ino)];
    assert Slashed(ws[1..]) == [SLASH] + Decimal(e.ino);
  }

  /** A directory is its first entries followed by the items of the rest. */
  lemma DirectorySplit(self: nat, parent: nat, es: seq<DirEntry>, fs: seq<DirEntry>)
    ensures Directory(self, parent, es + fs) == Directory(self, parent, es) + Slashed(EntryWords(fs))
  {
    hide Slashed, EntryWords, Decimal;
    EntryWordsAppend(es, fs);
    assert DirWords(self, parent, es + fs) == DirWords(self, parent, es) + EntryWords(fs);
    SlashedAppend(DirWords(self, parent, es), EntryWords(fs));
  }

  /** sfs_create and sfs_mkdir print the new item at the end of the text: that is the directory with one more entry. */
  lemma DirectoryAppend(self: nat, parent: nat, es: seq<DirEntry>, e: DirEntry)
    ensures Directory(self, parent, es + [e]) == Directory(self, parent, es) + Item(e)
  {
    DirectorySplit(self, parent, es, [e]);
    ItemIsSlashed(e);
  }

  /** The text of an empty directory: "./" and its own number, "/../" and the number of its parent. */
  lemma EmptyDirectory(self: nat, parent: nat)
    ensures Directory(self, parent, []) == [DOT, SLASH] + Decimal(self) + [SLASH, DOT, DOT, SLASH] + Decimal(parent)
  {
    hide Decimal;
    var me, dots, up: seq<Text> := [Decimal(self)], [[DOT, DOT]], [Decimal(parent)];
    assert DirWords(self, parent, []) == me + dots + up;
    SlashedAppend(me + dots, up);
    SlashedAppend(me, dots);
    OneWord(me[0]);
    OneWord(dots[0]);
    OneWord(up[0]);
  }

  lemma OneWord(w: Text)
    ensures Slashed([w]) == [SLASH] + w
  {
    var ws: seq<Text> := [w];
    assert ws[1..] == [];
  }

  /** The text of a directory around its entry i. */
  lemma DirectoryAround(self: nat, parent: nat, es: seq<DirEntry>, i: int) returns (tail: Text)
    requires 0 <= i < |es|
    ensures Directory(self, parent, es) == Directory(self, parent, es[..i]) + Item(es[i]) + tail
    ensures Directory(self, parent, es[..i] + es[i + 1..]) == Directory(self, parent, es[..i]) + tail
  {
    hide Directory, Slashed, EntryWords, Item;
    tail := Slashed(EntryWords(es[i + 1..]));
    assert es == es[..i] + [es[i]] + es[i + 1..];
    DirectorySplit(self, parent, es[..i] + [es[i]], es[i + 1..]);
    DirectoryAppend(self, parent, es[..i], es[i]);
    DirectorySplit(self, parent, es[..i], es[i + 1..]);
  }

  lemma OccursShifted(s: Text, pat: Text, k: int)
    requires pat != [] && pat[0] == SLASH && OccursAt([DOT] + s, pat, k)
    ensures OccursAt(s, pat, k - 1)
  {
    assert ([DOT] + s)[k..k + |pat|][0] == SLASH;
    assert s[k - 1..k - 1 + |pat|] == ([DOT] + s)[k..k + |pat|];
  }

  // ---------------------------------------------------------------- strtok and sfs_readdir

  /** The length of the slash-free run s starts with. */
  function WordEnd(s: Text): (k: nat)
    ensures k <= |s| && SLASH !in s[..k] && (k < |s| ==> s[k] == SLASH)
  {
    if s == [] || s[0] == SLASH then 0
    else
      var k := 1 + WordEnd(s[1..]);
      assert s[..k] == [s[0]] + s[1..][..k - 1];
      k
  }

  /** The tokens strtok(s, "/") delivers, call after call. */
  function Tokens(s: Text): seq<Text>
    decreases |s|
  {
    if s == [] then []
    else if s[0] == SLASH then Tokens(s[1..])
    else [s[..WordEnd(s)]] + Tokens(s[WordEnd(s)..])
  }

  /** One strtok call on the rest of the text: skip slashes, then take the word. */
  method Strtok(s: Text) returns (tok: Text, rest: Text)
    ensures if Tokens(s) == [] then tok == [] && rest == [] else tok != [] && Tokens(s) == [tok] + Tokens(rest)
    ensures |tok| + |rest| <= |s|
  {
    rest := s;
    while rest != [] && rest[0] == SLASH
      invariant Tokens(rest) == Tokens(s) && |rest| <= |s|
      decreases |rest|
    {
      rest := rest[1..];
    }
    var k := 0;
    while k < |rest| && rest[k] != SLASH
      invariant k <= |rest| && WordEnd(rest) == k + WordEnd(rest[k..])
    {
      k := k + 1;
    }
    tok, rest := rest[..k], rest[k..];
  }

  /** Every other element, starting with the first. */
  function Alternate(ts: seq<Text>): seq<Text> {
    if ts == [] then [] else [ts[0]] + (if |ts| == 1 then [] else Alternate(ts[2..]))
  }

  /** The loop of sfs_readdir: it passes every other token to the filler. */
  method ReadNames(text: Text) returns (names: seq<Text>)
    ensures names == Alternate(Tokens(text))
  {
    names := [];
    var tok, rest := Strtok(text);
    while tok != []
      invariant names + Alternate(if tok == [] then [] else [tok] + Tokens(rest)) == Alternate(Tokens(text))
      decreases |rest| + |tok|
    {
      ghost var all := [tok] + Tokens(rest);
      names := names + [tok];
      var skipped, after := Strtok(rest);
      assert skipped != [] ==> all[2..] == Tokens(after) && |all| > 1;
      assert skipped == [] ==> |all| == 1;
      tok, rest := Strtok(after);
    }
  }

  lemma {:induction false} WordEndAt(w: Text, rest: Text)
    requires SLASH !in w && (rest == [] || rest[0] == SLASH)
    ensures WordEnd(w + rest) == |w|
  {
    if w == [] {
      assert w + rest == rest;
    } else {
      WordEndAt(w[1..], rest);
      assert (w + rest)[1..] == w[1..] + rest;
    }
  }

  lemma WordToken(w: Text, rest: Text)
    requires Word(w) && (rest == [] || rest[0] == SLASH)
    ensures Tokens(w + rest) == [w] + Tokens(rest)
  {
    WordEndAt(w, rest);
    assert (w + rest)[..|w|] == w && (w + rest)[|w|..] == rest;
  }

  lemma TokensSkip(s: Text)
    ensures Tokens(s) == if s == [] then [] else if s[0] == SLASH then Tokens(s[1..]) else Tokens(s)
  {
  }

  lemma {:induction false} SlashedTokens(ws: seq<Text>)
    requires Words(ws)
    ensures Tokens(Slashed(ws)) == ws
  {
    hide Tokens, WordEnd;
    TokensSkip(Slashed(ws));
    if ws != [] {
      SlashedTokens(ws[1..]);
      WordToken(ws[0], Slashed(ws[1..]));
      assert Slashed(ws)[1..] == ws[0] + Slashed(ws[1..]);
    }
  }

  function Names(es: seq<DirEntry>): seq<Text> {
    seq(|es|, i requires 0 <= i < |es| => es[i].name)
  }

  lemma {:induction false} AlternateEntries(es: seq<DirEntry>)
    ensures Alternate(EntryWords(es)) == Names(es)
  {
    hide Decimal;
    if es != [] {
      AlternateEntries(es[1..]);
      assert EntryWords(es)[2..] == EntryWords(es[1..]);
      assert Names(es) == [es[0].name] + Names(es[1..]);
    } else {
      assert Names(es) == [];
    }
  }

  /** Listing a directory gives ".", ".." and then the names, in the order in which they were entered. */
  lemma ReaddirRoundTrip(self: nat, parent: nat, es: seq<DirEntry>)
    requires WordNames(es)
    ensures Alternate(Tokens(Directory(self, parent, es))) == [[DOT], [DOT, DOT]] + Names(es)
  {
    hide Slashed, EntryWords, Decimal, Tokens;
    var ws := DirWords(self, parent, es);
    DirWordsGood(self, parent, es);
    SlashedTokens(ws);
    SlashedStarts(ws);
    WordToken([DOT], Slashed(ws));
    AlternateEntries(es);
    var ts := [[DOT]] + ws;
    assert ts[2..][2..] == EntryWords(es);
    assert Alternate(ts) == [[DOT]] + Alternate(ts[2..]) && Alternate(ts[2..]) == [[DOT, DOT]] + Alternate(EntryWords(es));
  }

  lemma SlashedStarts(ws: seq<Text>)
    ensures Slashed(ws) == [] || Slashed(ws)[0] == SLASH
  {
  }

  // ---------------------------------------------------------------- the text inside its block

  lemma {:induction false} SlashedNoZero(ws: seq<Text>)
    requires Words(ws)
    ensures 0 !in Slashed(ws)
  {
    if ws != [] {
      SlashedNoZero(ws[1..]);
    }
  }

  /** A directory's text has no zero byte, so it is what the block holds as a C string. */
  lemma DirectoryNoZero(self: nat, parent: nat, es: seq<DirEntry>)
    requires WordNames(es)
    ensures 0 !in Directory(self, parent, es)
  {
    hide Slashed, EntryWords, Decimal;
    DirWordsGood(self, parent, es);
    SlashedNoZero(DirWords(self, parent, es));
  }
}
