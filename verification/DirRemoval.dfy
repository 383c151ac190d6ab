/** Removing an entry from the text of a directory (asst3/assignment3/src/sfs.c:312-317, 657-678): what removeSubstring
    leaves, and exactly when that is the directory without the entry. */
module DirRemoval {
  import opened Blocks
  import opened DirText

  // ---------------------------------------------------------------- removing from any text

  /** Every removal shortens the text by the length of the pattern. */
  lemma {:induction false} RemovedLength(s: Text, pat: Text, from: nat)
    requires pat != []
    ensures First(s, pat, from) == -1 ==> Removed(s, pat, from) == s
    ensures First(s, pat, from) != -1 ==> |Removed(s, pat, from)| <= |s| - |pat|
    decreases |s|
  {
    var k := First(s, pat, from);
    if k != -1 {
      RemovedLength(s[..k] + s[k + |pat|..], pat, k);
    }
  }

  lemma RemovedOnce(s: Text, pat: Text, from: nat)
    requires pat != []
    ensures var k := First(s, pat, from);
            Removed(s, pat, from) == if k == -1 then s else Removed(s[..k] + s[k + |pat|..], pat, k)
  {
  }

  /** The search goes on where the last occurrence was: what a removal joins across that place stays. From "aabb", removing
      "ab" leaves "ab". */
  lemma SearchGoesOn()
    ensures Removed([97, 97, 98, 98], [97, 98], 0) == [97, 98]
  {
    hide Removed;
    var s, r, pat: Text := [97, 97, 98, 98], [97, 98], [97, 98];
    RemovedOnce(s, pat, 0);
    RemovedOnce(r, pat, 1);
    assert !OccursAt(s, pat, 0) by { assert s[0..2][1] == 97; }
    assert OccursAt(s, pat, 1) by { assert s[1..3] == pat; }
    assert s[..1] + s[3..] == r;
  }

  /** Only the occurrence at |a| is removed from a + pat + b, if no other begins before it or lies after it. */
  lemma OneRemoved(a: Text, pat: Text, b: Text)
    requires pat != []
    requires forall k :: 0 <= k < |a| ==> !OccursAt(a + pat + b, pat, k)
    requires forall k :: |a| + |pat| <= k ==> !OccursAt(a + pat + b, pat, k)
    ensures Removed(a + pat + b, pat, 0) == a + b
  {
    hide First, Removed;
    var s := a + pat + b;
    assert OccursAt(s, pat, |a|);
    RemovedOnce(s, pat, 0);
    RemovedOnce(a + b, pat, |a|);
    assert s[..|a|] + s[|a| + |pat|..] == a + b;
    if First(a + b, pat, |a|) != -1 {
      Later(a, pat, b, First(a + b, pat, |a|));
    }
  }

  /** After the removal, what follows is found where it was, nearer by the length of the pattern. */
  lemma Later(a: Text, pat: Text, b: Text, k: int)
    requires |a| <= k
    ensures OccursAt(a + b, pat, k) <==> OccursAt(a + pat + b, pat, k + |pat|)
  {
    if k + |pat| <= |a + b| {
      assert (a + b)[k..k + |pat|] == (a + pat + b)[k + |pat|..k + |pat| + |pat|];
    }
  }

  /** Otherwise the result is another text, provided an occurrence that overlaps the wanted one from the left is not
      followed by what the pattern begins with. */
  lemma NotOneRemoved(a: Text, pat: Text, b: Text, k: int)
    requires pat != [] && 0 <= k && OccursAt(a + pat + b, pat, k) && (k < |a| || |a| + |pat| <= k)
    requires forall j :: 0 <= j < |a| < j + |pat| && OccursAt(a + pat + b, pat, j) ==> (a + pat + b)[j + |pat|] != pat[0]
    ensures Removed(a + pat + b, pat, 0) != a + b
  {
    hide First, Removed, OccursAt;
    var s := a + pat + b;
    Wanted(a, pat, b);
    var f := First(s, pat, 0);
    RemovedOnce(s, pat, 0);
    if f == |a| {
      FirstKept(a, pat, b, k);
    } else if f + |pat| <= |a| {
      StillThere(s, pat, f, |a|);
      RemovedLength(s[..f] + s[f + |pat|..], pat, f);
    } else {
      Damaged(a, pat, b, f);
      RemovedLength(s[..f] + s[f + |pat|..], pat, f);
    }
  }

  lemma Wanted(a: Text, pat: Text, b: Text)
    ensures OccursAt(a + pat + b, pat, |a|)
  {
  }

  /** Once the wanted occurrence is gone, a later one goes too. */
  lemma FirstKept(a: Text, pat: Text, b: Text, k: int)
    requires pat != [] && OccursAt(a + pat + b, pat, k) && |a| + |pat| <= k
    ensures var s := a + pat + b; |Removed(s[..|a|] + s[|a| + |pat|..], pat, |a|)| < |a + b|
  {
    hide First, Removed;
    var s := a + pat + b;
    assert s[..|a|] + s[|a| + |pat|..] == a + b;
    Later(a, pat, b, k - |pat|);
    RemovedLength(a + b, pat, |a|);
  }

  lemma Damaged(a: Text, pat: Text, b: Text, f: int)
    requires pat != [] && 0 <= f < |a| && OccursAt(a + pat + b, pat, f) && f + |pat| < |a + pat + b| && (a + pat + b)[f + |pat|] != pat[0]
    ensures var s := a + pat + b; s[..f] + s[f + |pat|..] != a + b
  {
    var s := a + pat + b;
    assert s[f] == s[f..f + |pat|][0] == pat[0];
    assert (s[..f] + s[f + |pat|..])[f] == s[f + |pat|] && (a + b)[f] == s[f];
  }

  lemma StillThere(s: Text, pat: Text, f: int, k: int)
    requires OccursAt(s, pat, f) && OccursAt(s, pat, k) && f + |pat| <= k
    ensures OccursAt(s[..f] + s[f + |pat|..], pat, k - |pat|)
  {
    var r := s[..f] + s[f + |pat|..];
    assert r[k - |pat|..k] == s[k..k + |pat|];
  }

  // ---------------------------------------------------------------- occurrences and words

  predicate Starts(w: Text, d: Text) {
    |d| <= |w| && w[..|d|] == d
  }

  /** Word j is the name, and the word after it begins with the number. */
  predicate Reads(ws: seq<Text>, j: int, name: Text, d: Text) {
    0 <= j < |ws| - 1 && ws[j] == name && Starts(ws[j + 1], d)
  }

  function Pattern(name: Text, d: Text): Text {
    [SLASH] + name + [SLASH] + d
  }

  lemma {:induction false} SplitAt(ws: seq<Text>, j: int)
    requires 0 <= j < |ws|
    ensures Slashed(ws) == Slashed(ws[..j]) + ([SLASH] + ws[j] + Slashed(ws[j + 1..]))
    ensures |Slashed(ws[..j + 1])| == |Slashed(ws[..j])| + 1 + |ws[j]|
  {
    assert ws == ws[..j] + ws[j..] && ws[j..][0] == ws[j] && ws[j..][1..] == ws[j + 1..];
    SlashedAppend(ws[..j], ws[j..]);
    var one: seq<Text> := [ws[j]];
    assert ws[..j + 1] == ws[..j] + one && one[1..] == [];
    SlashedAppend(ws[..j], one);
  }

  /** Words begin one after the other. */
  lemma {:induction false} Ordered(ws: seq<Text>, i: int, j: int)
    requires 0 <= i < j <= |ws|
    ensures |Slashed(ws[..i])| + 1 + |ws[i]| <= |Slashed(ws[..j])|
  {
    SplitAt(ws, j - 1);
    if i < j - 1 {
      Ordered(ws, i, j - 1);
    }
  }

  /** A slash-free text at the start of a word and what follows it lies within the word. */
  lemma PrefixOfWord(w: Text, rest: Text, d: Text)
    requires (rest == [] || rest[0] == SLASH) && SLASH !in d && Starts(w + rest, d)
    ensures Starts(w, d)
  {
    assert forall q :: 0 <= q < |d| ==> d[q] == (w + rest)[q] && d[q] != SLASH;
    assert |w| < |w + rest| ==> (w + rest)[|w|] == SLASH;
    assert (w + rest)[..|d|] == w[..|d|];
  }

  /** The pattern occurs exactly where the words read it. */
  lemma OccursReads(ws: seq<Text>, name: Text, d: Text, k: int) returns (j: int)
    requires Words(ws) && Word(name) && SLASH !in d && OccursAt(Slashed(ws), Pattern(name, d), k)
    ensures Reads(ws, j, name, d) && k == |Slashed(ws[..j])|
  {
    hide Slashed;
    j := OccursAtWord(ws, name, d, k);
    SplitAt(ws, j);
    var s, pat, rest := Slashed(ws), Pattern(name, d), Slashed(ws[j + 1..]);
    var at := k + 1 + |name|;
    assert s[at..] == rest;
    assert s[k..k + |pat|][1 + |name|..] == pat[1 + |name|..] == [SLASH] + d;
    assert s[at..at + 1 + |d|] == s[k..k + |pat|][1 + |name|..];
    assert rest[..1 + |d|] == [SLASH] + d;
    if j + 1 == |ws| {
      NothingSlashed(ws[j + 1..]);
    }
    NextWord(ws[j + 1..], d);
  }

  lemma NothingSlashed(ws: seq<Text>)
    ensures Slashed(ws) == [] <==> ws == []
  {
  }

  lemma NextWord(ws: seq<Text>, d: Text)
    requires Words(ws) && ws != [] && SLASH !in d && 1 + |d| <= |Slashed(ws)| && Slashed(ws)[..1 + |d|] == [SLASH] + d
    ensures Starts(ws[0], d)
  {
    hide Slashed;
    var rest := Slashed(ws[1..]);
    SlashedStarts(ws[1..]);
    SplitAt(ws, 0);
    NothingSlashed(ws[..0]);
    assert Slashed(ws)[1..1 + |d|] == (ws[0] + rest)[..|d|];
    assert Slashed(ws)[..1 + |d|][1..] == d;
    PrefixOfWord(ws[0], rest, d);
  }

  lemma ReadsOccurs(ws: seq<Text>, name: Text, d: Text, j: int)
    requires Reads(ws, j, name, d)
    ensures OccursAt(Slashed(ws), Pattern(name, d), |Slashed(ws[..j])|)
  {
    hide Slashed;
    var k, s := |Slashed(ws[..j])|, Slashed(ws);
    SplitAt(ws, j);
    SplitAt(ws, j + 1);
    var rest := Slashed(ws[j + 2..]);
    assert Slashed(ws[..j + 1]) == s[..k + 1 + |name|] by { PrefixSlashed(ws, j + 1); }
    assert s[k..] == [SLASH] + name + s[k + 1 + |name|..];
    assert s[k + 1 + |name|..] == [SLASH] + ws[j + 1] + rest;
    assert ws[j + 1] == d + ws[j + 1][|d|..];
    assert s[k..] == Pattern(name, d) + ws[j + 1][|d|..] + rest;
    assert s[k..][..|Pattern(name, d)|] == s[k..k + |Pattern(name, d)|];
  }

  lemma PrefixSlashed(ws: seq<Text>, j: int)
    requires 0 <= j <= |ws|
    ensures |Slashed(ws[..j])| <= |Slashed(ws)| && Slashed(ws)[..|Slashed(ws[..j])|] == Slashed(ws[..j])
  {
    assert ws == ws[..j] + ws[j..];
    SlashedAppend(ws[..j], ws[j..]);
  }

  // ---------------------------------------------------------------- directories

  /** Nowhere else in the directory do two words in a row read like entry i. */
  predicate Clear(self: nat, parent: nat, es: seq<DirEntry>, i: int)
    requires 0 <= i < |es|
  {
    var ws := DirWords(self, parent, es);
    forall j :: 0 <= j < |ws| && (j < 3 + 2 * i || j > 4 + 2 * i) ==> !Reads(ws, j, es[i].name, Decimal(es[i].ino))
  }

  /** Where entry i stands: after a, before b. */
  lemma EntryAt(self: nat, parent: nat, es: seq<DirEntry>, i: int) returns (a: Text, b: Text)
    requires 0 <= i < |es|
    ensures Directory(self, parent, es) == a + Item(es[i]) + b && Directory(self, parent, es[..i] + es[i + 1..]) == a + b
    ensures |a| == 1 + |Slashed(DirWords(self, parent, es)[..3 + 2 * i])|
    ensures |a| + |Item(es[i])| == 1 + |Slashed(DirWords(self, parent, es)[..5 + 2 * i])|
  {
    hide Slashed, EntryWords, Decimal;
    b := DirectoryAround(self, parent, es, i);
    a := Directory(self, parent, es[..i]);
    var ws := DirWords(self, parent, es);
    assert es == es[..i] + es[i..];
    EntryWordsAppend(es[..i], es[i..]);
    assert ws[..3 + 2 * i] == DirWords(self, parent, es[..i]);
    SplitAt(ws, 3 + 2 * i);
    SplitAt(ws, 4 + 2 * i);
    assert EntryWords(es)[2 * i] == es[i].name && EntryWords(es)[2 * i + 1] == Decimal(es[i].ino);
  }

  lemma {:induction false} DecimalInjective(m: nat, n: nat)
    requires Decimal(m) == Decimal(n)
    ensures m == n
  {
    var s, t := Decimal(m), Decimal(n);
    assert s[|s| - 1] == 48 + m % 10 && t[|t| - 1] == 48 + n % 10;
    assert m >= 10 ==> |s| >= 2 && s[..|s| - 1] == Decimal(m / 10);
    assert n >= 10 ==> |t| >= 2 && t[..|t| - 1] == Decimal(n / 10);
    if m >= 10 {
      assert n >= 10;
      DecimalInjective(m / 10, n / 10);
    } else {
      assert n < 10;
    }
  }

  /** The inode numbers differ, and none is that of the parent. */
  predicate NumbersApart(parent: nat, es: seq<DirEntry>, i: int)
    requires 0 <= i < |es|
  {
    es[i].ino != parent && forall k :: 0 <= k < |es| && k != i ==> es[k].ino != es[i].ino
  }

  /** An occurrence of the item in a directory, as its words. */
  lemma ItemReads(self: nat, parent: nat, es: seq<DirEntry>, e: DirEntry, k: int) returns (j: int)
    requires WordNames(es) && Word(e.name) && OccursAt(Directory(self, parent, es), Item(e), k)
    ensures var ws := DirWords(self, parent, es);
            Reads(ws, j, e.name, Decimal(e.ino)) && k == 1 + |Slashed(ws[..j])|
  {
    hide Slashed, DirWords, Decimal, OccursAt;
    var ws := DirWords(self, parent, es);
    OccursShifted(Slashed(ws), Item(e), k);
    DirWordsGood(self, parent, es);
    NoSlashInDecimal(e.ino);
    j := OccursReads(ws, e.name, Decimal(e.ino), k - 1);
  }

  lemma NoSlashInDecimal(n: nat)
    ensures SLASH !in Decimal(n)
  {
  }

  /** Positions in the text and positions in the words are in the same order. */
  lemma Before(ws: seq<Text>, i: int, j: int)
    requires 0 <= i <= |ws| && 0 <= j <= |ws|
    ensures i < j <==> |Slashed(ws[..i])| < |Slashed(ws[..j])|
  {
    hide Slashed;
    if i < j {
      Ordered(ws, i, j);
    } else if j < i {
      Ordered(ws, j, i);
    }
  }

  /** Removing "/name/ino" deletes exactly that entry and nothing else, if the directory is clear of other places that read
      like it. */
  lemma RemoveEntry(self: nat, parent: nat, es: seq<DirEntry>, i: int)
    requires WordNames(es) && 0 <= i < |es| && Clear(self, parent, es, i)
    ensures Removed(Directory(self, parent, es), Item(es[i]), 0) == Directory(self, parent, es[..i] + es[i + 1..])
  {
    hide Slashed, Directory, DirWords, Decimal, OccursAt, Item, Removed;
    var ws, pat := DirWords(self, parent, es), Item(es[i]);
    var a, b := EntryAt(self, parent, es, i);
    forall k | 0 <= k && (k < |a| || |a| + |pat| <= k)
      ensures !OccursAt(a + pat + b, pat, k)
    {
      if OccursAt(a + pat + b, pat, k) {
        var j := ItemReads(self, parent, es, es[i], k);
        WordsOfDirectory(self, parent, es);
        Before(ws, j, 3 + 2 * i);
        Before(ws, j, 5 + 2 * i);
      }
    }
    ItemNotEmpty(es[i]);
    OneRemoved(a, pat, b);
  }

  lemma WordsOfDirectory(self: nat, parent: nat, es: seq<DirEntry>)
    ensures |DirWords(self, parent, es)| == 3 + 2 * |es|
  {
  }

  lemma ItemNotEmpty(e: DirEntry)
    ensures Item(e) != [] && Item(e)[0] == SLASH
  {
  }

  /** If an occurrence overlaps entry i from the left, the word before the entry is its name, and what follows the
      occurrence is no slash. */
  lemma Overlap(self: nat, parent: nat, es: seq<DirEntry>, i: int, k: int)
    requires WordNames(es) && 0 <= i < |es| && NumbersApart(parent, es, i)
    requires OccursAt(Directory(self, parent, es), Item(es[i]), k)
    requires var at := 1 + |Slashed(DirWords(self, parent, es)[..3 + 2 * i])|; k < at < k + |Item(es[i])|
    ensures k + |Item(es[i])| < |Directory(self, parent, es)| && Directory(self, parent, es)[k + |Item(es[i])|] != SLASH
  {
    hide Slashed, DirWords, Decimal, OccursAt;
    var ws, name, d := DirWords(self, parent, es), es[i].name, Decimal(es[i].ino);
    var j0 := 3 + 2 * i;
    WordsOfDirectory(self, parent, es);
    var j := ItemReads(self, parent, es, es[i], k);
    Before(ws, j, j0);
    SplitAt(ws, j);
    if j + 1 < j0 {
      Ordered(ws, j + 1, j0);
    }
    assert j + 1 == j0;
    EntryWord(self, parent, es, i);
    if |d| == |name| {
      assert name == d;
      Neighbour(self, parent, es, i);
      DecimalInjective(es[i].ino, if i == 0 then parent else es[i - 1].ino);
    }
    SplitAt(ws, j0);
    var s := Slashed(ws);
    assert s[|Slashed(ws[..j0])| + 1 + |d|] == name[|d|];
  }

  lemma EntryWord(self: nat, parent: nat, es: seq<DirEntry>, i: int)
    requires 0 <= i < |es|
    ensures |DirWords(self, parent, es)| == 3 + 2 * |es| && DirWords(self, parent, es)[3 + 2 * i] == es[i].name
  {
    hide Decimal;
    assert EntryWords(es)[2 * i] == es[i].name;
  }

  /** The word before the name of entry i is a number. */
  lemma Neighbour(self: nat, parent: nat, es: seq<DirEntry>, i: int)
    requires 0 <= i < |es|
    ensures |DirWords(self, parent, es)| == 3 + 2 * |es|
    ensures DirWords(self, parent, es)[2 + 2 * i] == Decimal(if i == 0 then parent else es[i - 1].ino)
  {
    hide Decimal;
    if i > 0 {
      assert EntryWords(es)[2 * (i - 1) + 1] == Decimal(es[i - 1].ino);
      assert DirWords(self, parent, es)[2 + 2 * i] == EntryWords(es)[2 * (i - 1) + 1];
    }
  }

  /** Exactly when the removal is right: for every directory whose inode numbers differ, with names of any kind. */
  lemma RemoveEntryIff(self: nat, parent: nat, es: seq<DirEntry>, i: int)
    requires WordNames(es) && 0 <= i < |es| && NumbersApart(parent, es, i)
    ensures Removed(Directory(self, parent, es), Item(es[i]), 0) == Directory(self, parent, es[..i] + es[i + 1..])
            <==> Clear(self, parent, es, i)
  {
    hide Slashed, Directory, DirWords, Decimal, OccursAt, Item, Removed, NumbersApart;
    if Clear(self, parent, es, i) {
      RemoveEntry(self, parent, es, i);
    } else {
      NotClear(self, parent, es, i);
    }
  }

  lemma NotClear(self: nat, parent: nat, es: seq<DirEntry>, i: int)
    requires WordNames(es) && 0 <= i < |es| && NumbersApart(parent, es, i) && !Clear(self, parent, es, i)
    ensures Removed(Directory(self, parent, es), Item(es[i]), 0) != Directory(self, parent, es[..i] + es[i + 1..])
  {
    hide Slashed, DirWords, Decimal, OccursAt, Removed, NumbersApart, Reads;
    var ws, pat := DirWords(self, parent, es), Item(es[i]);
    var j :| 0 <= j < |ws| && (j < 3 + 2 * i || j > 4 + 2 * i) && Reads(ws, j, es[i].name, Decimal(es[i].ino));
    var a, b := EntryAt(self, parent, es, i);
    WordsOfDirectory(self, parent, es);
    ReadsOccurs(ws, es[i].name, Decimal(es[i].ino), j);
    var k := 1 + |Slashed(ws[..j])|;
    Shifted(Slashed(ws), pat, k - 1);
    Before(ws, j, 3 + 2 * i);
    Before(ws, 4 + 2 * i, j);
    Before(ws, j, 5 + 2 * i);
    ItemNotEmpty(es[i]);
    forall q | 0 <= q < |a| < q + |pat| && OccursAt(a + pat + b, pat, q)
      ensures q + |pat| < |a + pat + b| && (a + pat + b)[q + |pat|] != pat[0]
    {
      Overlap(self, parent, es, i, q);
    }
    NotOneRemoved(a, pat, b, k);
  }

  lemma Shifted(s: Text, pat: Text, k: int)
    requires OccursAt(s, pat, k)
    ensures OccursAt([DOT] + s, pat, k + 1)
  {
    assert ([DOT] + s)[k + 1..k + 1 + |pat|] == s[k..k + |pat|];
  }

  /** A name with a character that is no digit, other than the two built-in ones, is always clear. */
  lemma NoDigitsClear(self: nat, parent: nat, es: seq<DirEntry>, i: int)
    requires GoodEntries(es) && 0 <= i < |es|
    requires !AllDigits(es[i].name) && es[i].name != [DOT, DOT]
    ensures Clear(self, parent, es, i)
  {
    hide Decimal;
    var ws := DirWords(self, parent, es);
    forall j | 0 <= j < |ws| && (j < 3 + 2 * i || j > 4 + 2 * i)
      ensures ws[j] != es[i].name
    {
      if j >= 3 {
        var e := (j - 3) / 2;
        assert ws[j] == EntryWords(es)[j - 3];
        assert EntryWords(es)[2 * e] == es[e].name && EntryWords(es)[2 * e + 1] == Decimal(es[e].ino);
      }
    }
  }

  /** A directory that is not clear, and what is left of it: removing the entry of the file 5 from "a" (inode 5), "3x"
      (inode 7), "5" (inode 3) leaves "./0/../0/ax/7". */
  lemma DigitNameDamages()
    ensures var es := [DirEntry([97], 5), DirEntry([51, 120], 7), DirEntry([53], 3)];
            && GoodEntries(es) && !Clear(0, 0, es, 2)
            && Removed(Directory(0, 0, es), Item(es[2]), 0) == [46, 47, 48, 47, 46, 46, 47, 48, 47, 97, 120, 47, 55]
  {
    hide Removed, Clear, GoodEntries, Directory, Item;
    DamagedWords();
    DamagedText();
    DamagedRemoval();
  }

  lemma DamagedRemoval()
    ensures Removed([46, 47, 48, 47, 46, 46, 47, 48, 47, 97, 47, 53, 47, 51, 120, 47, 55, 47, 53, 47, 51], [47, 53, 47, 51], 0)
            == [46, 47, 48, 47, 46, 46, 47, 48, 47, 97, 120, 47, 55]
  {
    hide Removed, First;
    var t: Text := [46, 47, 48, 47, 46, 46, 47, 48, 47, 97, 47, 53, 47, 51, 120, 47, 55, 47, 53, 47, 51];
    var r: Text := [46, 47, 48, 47, 46, 46, 47, 48, 47, 97, 120, 47, 55, 47, 53, 47, 51];
    var e: Text := [46, 47, 48, 47, 46, 46, 47, 48, 47, 97, 120, 47, 55];
    var pat: Text := [47, 53, 47, 51];
    Found(t, pat, 0, 10);
    assert t[..10] + t[14..] == r;
    Found(r, pat, 10, 13);
    assert r[..13] + r[17..] == e;
    RemovedOnce(t, pat, 0);
    RemovedOnce(r, pat, 10);
    RemovedOnce(e, pat, 13);
  }

  /** The first place where the pattern "/5/3" can begin. */
  lemma Found(s: Text, pat: Text, from: nat, k: int)
    requires from <= k && OccursAt(s, pat, k) && |pat| == 4
    requires forall j :: from <= j < k ==> s[j] != pat[0] || s[j + 1] != pat[1]
    ensures First(s, pat, from) == k
  {
    hide First;
    var f := First(s, pat, from);
    assert OccursAt(s, pat, f);
    assert s[f..f + 4][0] == s[f] && s[f..f + 4][1] == s[f + 1];
  }

  lemma DamagedWords()
    ensures var es := [DirEntry([97], 5), DirEntry([51, 120], 7), DirEntry([53], 3)];
            GoodEntries(es) && !Clear(0, 0, es, 2)
  {
    var es := [DirEntry([97], 5), DirEntry([51, 120], 7), DirEntry([53], 3)];
    assert es[0].name[0] == 97 && es[1].name[1] == 120 && es[2].name[0] == 53;
    var ws := DirWords(0, 0, es);
    assert EntryWords(es)[2 * 0 + 1] == Decimal(5) == [53] && EntryWords(es)[2 * 1] == es[1].name;
    assert Decimal(3) == [51];
    assert ws[4] == [53] && ws[5] == [51, 120];
    assert Reads(ws, 4, es[2].name, Decimal(es[2].ino));
  }

  lemma DamagedText()
    ensures var es := [DirEntry([97], 5), DirEntry([51, 120], 7), DirEntry([53], 3)];
            && Directory(0, 0, es) == [46, 47, 48, 47, 46, 46, 47, 48, 47, 97, 47, 53, 47, 51, 120, 47, 55, 47, 53, 47, 51]
            && Item(es[2]) == [47, 53, 47, 51]
  {
    hide Slashed, EntryWords, Directory;
    var es := [DirEntry([97], 5), DirEntry([51, 120], 7), DirEntry([53], 3)];
    DotsText();
    DirectoryAppend(0, 0, [], es[0]);
    DirectoryAppend(0, 0, [es[0]], es[1]);
    DirectoryAppend(0, 0, [es[0], es[1]], es[2]);
    assert [] + [es[0]] == [es[0]] && [es[0]] + [es[1]] == [es[0], es[1]] && [es[0], es[1]] + [es[2]] == es;
    assert Decimal(5) == [53] && Decimal(7) == [55] && Decimal(3) == [51];
  }

  /** The empty root directory is "./0/../0". */
  lemma DotsText()
    ensures Directory(0, 0, []) == [46, 47, 48, 47, 46, 46, 47, 48]
  {
    var zero: Text, dots: Text := [48], [DOT, DOT];
    assert Decimal(0) == zero;
    assert DirWords(0, 0, []) == [zero] + [dots] + [zero];
    SlashedAppend([zero] + [dots], [zero]);
    SlashedAppend([zero], [dots]);
    assert Slashed([zero]) == [SLASH] + zero && Slashed([dots]) == [SLASH] + dots;
  }
}
