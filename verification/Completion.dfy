/** The words below a prefix in the order of the autocomplete engine (MyShell/engine.c). */
module Completion {

  /** The table of the 27 characters, and the same table as a function. */
  const ALPHABET: string := "abcdefghijklmnopqrstuvwxyz "

  function Alpha(j: nat): char
    requires j < 27
  {
    if j < 26 then ('a' as int + j) as char else ' '
  }

  lemma AlphaIsAlphabet(j: nat)
    requires j < 27
    ensures |ALPHABET| == 27 && ALPHABET[j] == Alpha(j)
    ensures forall i :: 0 <= i < j ==> CharBefore(ALPHABET[i], ALPHABET[j])
  {
    forall i | 0 <= i < j
      ensures ALPHABET[i] == Alpha(i)
    {
    }
  }

  predicate Lower(c: char) {
    'a' <= c <= 'z'
  }

  predicate Letter(c: char) {
    Lower(c) || c == ' '
  }

  predicate LowerWord(s: string) {
    forall i :: 0 <= i < |s| ==> Lower(s[i])
  }

  predicate Word(s: string) {
    forall i :: 0 <= i < |s| ==> Letter(s[i])
  }

  lemma WordSnoc(p: string, c: char)
    requires Word(p) && Letter(c)
    ensures Word(p + [c])
  {
  }

  lemma LetterOf(s: string, i: nat)
    requires Word(s) && i < |s|
    ensures Letter(s[i])
  {
  }

  /** The child index of a character. */
  function Position(c: char): (p: nat)
    requires Letter(c)
    ensures p < 27 && Alpha(p) == c
  {
    if c != ' ' then c as int - 'a' as int else 26
  }

  lemma AlphabetPosition(j: nat)
    requires j < 27
    ensures Letter(Alpha(j)) && Position(Alpha(j)) == j
  {
  }

  /** Lexicographic order with the space after z and a word before its extensions. */
  predicate Before(a: string, b: string)
    requires Word(a) && Word(b)
  {
    if a == [] || b == [] then a == [] && b != []
    else Position(a[0]) < Position(b[0]) || (a[0] == b[0] && Before(a[1..], b[1..]))
  }

  ghost predicate Sorted(list: seq<string>) {
    && (forall i :: 0 <= i < |list| ==> Word(list[i]))
    && forall i, j :: 0 <= i < j < |list| ==> Before(list[i], list[j])
  }

  /** The same order on characters and words, read off the strings: letters by their code, the space
      after them, and a word before its extensions. */
  predicate CharBefore(x: char, y: char) {
    (y == ' ' && x != ' ') || ('a' <= x <= 'z' && 'a' <= y <= 'z' && x < y)
  }

  ghost predicate Precedes(a: string, b: string) {
    || (a <= b && |a| < |b|)
    || exists i :: 0 <= i < |a| && i < |b| && a[..i] == b[..i] && CharBefore(a[i], b[i])
  }

  lemma PrecedesCons(a: string, b: string)
    requires a != [] && b != []
    ensures Precedes(a, b) <==> CharBefore(a[0], b[0]) || (a[0] == b[0] && Precedes(a[1..], b[1..]))
  {
    var x, y := a[1..], b[1..];
    if CharBefore(a[0], b[0]) {
      assert a[..0] == b[..0];
    }
    if a[0] == b[0] && Precedes(x, y) {
      if !(x <= y && |x| < |y|) {
        var i :| 0 <= i < |x| && i < |y| && x[..i] == y[..i] && CharBefore(x[i], y[i]);
        assert a[..i + 1] == [a[0]] + x[..i] && b[..i + 1] == [b[0]] + y[..i];
        assert CharBefore(a[i + 1], b[i + 1]);
      }
    }
    if Precedes(a, b) && !(a <= b && |a| < |b|) {
      var i :| 0 <= i < |a| && i < |b| && a[..i] == b[..i] && CharBefore(a[i], b[i]);
      if i > 0 {
        assert a[..i][0] == b[..i][0];
        assert x[..i - 1] == a[..i][1..] && y[..i - 1] == b[..i][1..];
        assert CharBefore(x[i - 1], y[i - 1]);
      }
    }
  }

  lemma {:induction false} BeforeIff(a: string, b: string)
    requires Word(a) && Word(b)
    ensures Before(a, b) <==> Precedes(a, b)
  {
    if a != [] && b != [] {
      PrecedesCons(a, b);
      BeforeIff(a[1..], b[1..]);
    }
  }

  /** Sorted means sorted in that order. */
  lemma SortedIff(list: seq<string>)
    ensures Sorted(list) <==>
      && (forall i :: 0 <= i < |list| ==> Word(list[i]))
      && (forall i, j :: 0 <= i < j < |list| ==> Precedes(list[i], list[j]))
  {
    hide Precedes, Word;
    if forall i :: 0 <= i < |list| ==> Word(list[i]) {
      forall i, j | 0 <= i < j < |list|
        ensures Before(list[i], list[j]) <==> Precedes(list[i], list[j])
      {
        BeforeIff(list[i], list[j]);
      }
    }
  }

  lemma {:induction false} BeforeIrreflexive(a: string)
    requires Word(a)
    ensures !Before(a, a)
  {
    if a != [] {
      BeforeIrreflexive(a[1..]);
    }
  }

  lemma {:induction false} BeforeUnderPrefix(p: string, a: string, b: string)
    requires Word(p) && Word(a) && Word(b)
    ensures Word(p + a) && Word(p + b) && Before(p + a, p + b) == Before(a, b)
  {
    if p == [] {
      assert p + a == a && p + b == b;
    } else {
      BeforeUnderPrefix(p[1..], a, b);
      assert (p + a)[1..] == p[1..] + a && (p + b)[1..] == p[1..] + b;
    }
  }

  /** p in front of every element. */
  function Under(p: string, list: seq<string>): (r: seq<string>)
    ensures |r| == |list|
    ensures forall i :: 0 <= i < |r| ==> r[i] == p + list[i]
  {
    seq(|list|, i requires 0 <= i < |list| => p + list[i])
  }

  lemma UnderSorted(p: string, list: seq<string>)
    requires Word(p) && Sorted(list)
    ensures Sorted(Under(p, list))
  {
    forall i, j | 0 <= i < j < |list|
      ensures Before(p + list[i], p + list[j])
    {
      BeforeUnderPrefix(p, list[i], list[j]);
    }
    forall i | 0 <= i < |list|
      ensures Word(p + list[i])
    {
      BeforeUnderPrefix(p, list[i], list[i]);
    }
  }

  lemma SortedAppend(a: seq<string>, b: seq<string>)
    requires Sorted(a) && Sorted(b)
    requires forall x, y :: x in a && y in b ==> Before(x, y)
    ensures Sorted(a + b)
  {
  }

  lemma {:induction false} BeforeAsymmetric(a: string, b: string)
    requires Word(a) && Word(b) && Before(a, b)
    ensures !Before(b, a)
  {
    if a != [] && a[0] == b[0] {
      BeforeAsymmetric(a[1..], b[1..]);
    }
  }

  /** A sorted list has no duplicates ... */
  lemma SortedDistinct(list: seq<string>)
    requires Sorted(list)
    ensures forall i, j :: 0 <= i < j < |list| ==> list[i] != list[j]
  {
    forall i, j | 0 <= i < j < |list|
      ensures list[i] != list[j]
    {
      BeforeIrreflexive(list[i]);
    }
  }

  /** ... and is determined by its elements. */
  lemma {:induction false} SortedUnique(a: seq<string>, b: seq<string>)
    requires Sorted(a) && Sorted(b)
    requires forall w: string :: w in a <==> w in b
    ensures a == b
  {
    assert b != [] ==> b[0] in b;
    if a != [] {
      assert a[0] in b;
      var i :| 0 <= i < |b| && b[i] == a[0];
      assert b[0] in a;
      var j :| 0 <= j < |a| && a[j] == b[0];
      var x, y := a[0], b[0];
      assert x == y by {
        if i > 0 && j > 0 {
          BeforeAsymmetric(x, y);
        }
      }
      SortedDistinct(a);
      SortedDistinct(b);
      forall w: string
        ensures w in a[1..] <==> w in b[1..]
      {
        assert w in a[1..] <==> w in a && w != a[0];
        assert w in b[1..] <==> w in b && w != b[0];
      }
      SortedUnique(a[1..], b[1..]);
    }
  }

  /** The completions found below the first j children: the node itself first, then child by child. */
  ghost predicate Covers(tails: seq<string>, words: set<string>, path: string, j: nat)
    requires j <= 27
  {
    forall t: string :: t in tails <==>
      path + t in words && Word(t) && (t == [] || Position(t[0]) < j)
  }

  /** Appending the listing of child j. */
  lemma CoversNext(tails: seq<string>, words: set<string>, path: string, j: nat, below: seq<string>)
    requires j < 27 && Sorted(tails) && Sorted(below)
    requires Covers(tails, words, path, j)
    requires forall t: string :: t in below <==> path + [Alpha(j)] + t in words && Word(t)
    ensures Sorted(tails + Under([Alpha(j)], below))
    ensures Covers(tails + Under([Alpha(j)], below), words, path, j + 1)
  {
    var c := Alpha(j);
    AlphabetPosition(j);
    var more := Under([c], below);
    UnderSorted([c], below);
    forall x, y | x in tails && y in more
      ensures Before(x, y)
    {
    }
    SortedAppend(tails, more);
    forall t: string
      ensures t in more <==> path + t in words && Word(t) && t != [] && Position(t[0]) == j
    {
      UnderMember(c, j, below, words, path, t);
    }
  }

  lemma UnderMember(c: char, j: nat, below: seq<string>, words: set<string>, path: string, t: string)
    requires j < 27 && c == Alpha(j) && Letter(c) && Position(c) == j
    requires forall u: string :: u in below <==> path + [c] + u in words && Word(u)
    ensures t in Under([c], below) <==> path + t in words && Word(t) && t != [] && Position(t[0]) == j
  {
    var more := Under([c], below);
    if t in more {
      var i :| 0 <= i < |more| && more[i] == t;
      assert t == [c] + below[i] && below[i] in below;
      assert path + t == path + [c] + below[i];
    }
    if path + t in words && Word(t) && t != [] && Position(t[0]) == j {
      var u := t[1..];
      assert t == [c] + u;
      assert path + t == path + [c] + u;
      assert u in below;
      var i :| 0 <= i < |below| && below[i] == u;
      assert more[i] == t;
    }
  }

  lemma CoversAll(tails: seq<string>, words: set<string>, path: string)
    requires Covers(tails, words, path, 27)
    ensures forall t: string :: t in tails <==> path + t in words && Word(t)
  {
  }

  /** A child's completions, written with the child's own prefix, extend the listing. */
  lemma UnderUnder(before: seq<string>, op: string, c: char, tails: seq<string>, below: seq<string>)
    ensures before + Under(op, tails) + Under(op + [c], below) == before + Under(op, tails + Under([c], below))
  {
    forall i | 0 <= i < |below|
      ensures op + [c] + below[i] == op + ([c] + below[i])
    {
    }
    assert Under(op, tails) + Under(op + [c], below) == Under(op, tails + Under([c], below));
  }

  /** The listing of a node is the listing of its words under the prefix. */
  ghost predicate Lists(list: seq<string>, words: set<string>, prefix: string) {
    && Sorted(list)
    && forall w: string :: w in list <==> w in words && prefix <= w
  }

  lemma ListsFromTails(tails: seq<string>, words: set<string>, prefix: string)
    requires Word(prefix) && Sorted(tails) && forall w :: w in words ==> Word(w)
    requires forall t: string :: t in tails <==> prefix + t in words && Word(t)
    ensures Lists(Under(prefix, tails), words, prefix)
  {
    var list := Under(prefix, tails);
    UnderSorted(prefix, tails);
    forall w: string
      ensures w in list <==> w in words && prefix <= w
    {
      if w in list {
        var i :| 0 <= i < |list| && list[i] == w;
        assert tails[i] in tails;
      }
      if w in words && prefix <= w {
        var t := w[|prefix|..];
        assert w == prefix + t;
        assert t in tails;
        var i :| 0 <= i < |tails| && tails[i] == t;
        assert list[i] == w;
      }
    }
  }
}
