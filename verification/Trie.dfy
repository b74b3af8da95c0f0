/** The autocomplete trie of MyShell/engine.c on the heap. */
module Trie {
  import opened Completion

  /** struct Node_t: the 27 child pointers are part of the record. */
  class Node {
    var child: seq<Node?>
    var isEnd: bool

    constructor ()
      ensures |child| == 27 && !isEnd
      ensures forall j :: 0 <= j < 27 ==> child[j] == null
    {
      child := seq(27, _ => null);
      isEnd := false;
    }
  }

  /** The node that child j of the node of path p has to point to. */
  ghost function Target(at: map<string, Node>, p: string, j: nat): Node?
    requires j < 27
  {
    if p + [Alpha(j)] in at then at[p + [Alpha(j)]] else null
  }

  ghost predicate PrefixClosed(at: map<string, Node>) {
    forall p: string, c: char {:trigger p + [c]} :: p + [c] in at ==> p in at
  }

  lemma TargetExtend(at: map<string, Node>, p: string, c: char, node: Node, r: string, j: nat)
    requires j < 27 && Letter(c)
    ensures Target(at[p + [c] := node], r, j) == if r == p && j == Position(c) then node else Target(at, r, j)
  {
    AlphabetPosition(j);
    var s, q := r + [Alpha(j)], p + [c];
    assert s[..|s| - 1] == r && s[|s| - 1] == Alpha(j);
    assert q[..|q| - 1] == p && q[|q| - 1] == c;
  }

  lemma NoPathBelow(at: map<string, Node>, q: string, j: nat)
    requires j < 27 && q !in at && PrefixClosed(at)
    ensures Target(at, q, j) == null
  {
  }

  lemma PrefixClosedExtend(at: map<string, Node>, p: string, c: char, node: Node)
    requires PrefixClosed(at) && p in at
    ensures PrefixClosed(at[p + [c] := node])
  {
    var q := p + [c];
    forall r: string, d: char | r + [d] in at[q := node]
      ensures r in at[q := node]
    {
      var s := r + [d];
      assert s[..|s| - 1] == r && q[..|q| - 1] == p;
    }
  }

  /** The root, the array of completions, and (ghost) the node at the end of every path. */
  class Engine {
    const root: Node
    var completions: seq<string>
    ghost var at: map<string, Node>

    ghost predicate NodeOk(p: string)
      requires p in at
      reads this`at, at.Values
    {
      && |at[p].child| == 27
      && forall j: nat :: j < 27 ==> at[p].child[j] == Target(at, p, j)
    }

    /** The nodes form a tree: each is reached by exactly one path. */
    ghost predicate TreeShaped()
      reads this`at, at.Values
    {
      && "" in at && at[""] == root
      && (forall p :: p in at ==> Word(p) && NodeOk(p))
      && (forall p, q :: p in at && q in at && at[p] == at[q] ==> p == q)
      && PrefixClosed(at)
    }

    /** p has an end-marked node at or below it. */
    ghost predicate Live(p: string)
      reads this`at, at.Values
    {
      exists w :: w in at && p <= w && at[w].isEnd
    }

    ghost predicate Valid()
      reads this`at, at.Values
    {
      TreeShaped() && forall p :: p in at && p != "" ==> Live(p)
    }

    ghost function Words(): set<string>
      reads this`at, at.Values
    {
      set p | p in at && at[p].isEnd
    }

    constructor ()
      ensures Valid() && Words() == {} && completions == [] && fresh(at.Values)
    {
      root := new Node();
      completions := [];
      new;
      at := map["" := root];
    }

    /** Every prefix of a path is a path. */
    lemma PrefixIsPath(p: string, q: string)
      requires TreeShaped() && q in at && p <= q
      ensures p in at
      decreases |q|
    {
      if p != q {
        var r := q[..|q| - 1];
        assert p <= r && q == r + [q[|q| - 1]];
        PrefixIsPath(p, r);
      }
    }

    /** A path exists exactly when it is empty or some word goes through it. */
    lemma PathIffWordBelow(p: string)
      requires Valid()
      ensures p in at <==> p == "" || exists w :: w in Words() && p <= w
    {
      if p in at && p != "" {
        var w :| w in at && p <= w && at[w].isEnd;
        assert w in Words();
      }
      if w :| w in Words() && p <= w {
        PrefixIsPath(p, w);
      }
    }

    /** temp->child[position] = newNode(), where temp is the node of path p. */
    method Extend(temp: Node, c: char, ghost p: string)
      requires TreeShaped() && Letter(c) && p in at && at[p] == temp && p + [c] !in at
      modifies this`at, temp`child
      ensures TreeShaped() && p + [c] in at && fresh(at[p + [c]])
      ensures at == old(at)[p + [c] := at[p + [c]]]
      ensures temp.child[Position(c)] == at[p + [c]]
      ensures Words() == old(Words())
    {
      hide Word;
      var node := new Node();
      ghost var q := p + [c];
      temp.child := temp.child[Position(c) := node];
      at := at[q := node];
      WordSnoc(p, c);
      forall r | r in at
        ensures NodeOk(r)
      {
        forall j: nat | j < 27
          ensures at[r].child[j] == Target(at, r, j)
        {
          TargetExtend(old(at), p, c, node, r, j);
          if r == q {
            NoPathBelow(old(at), q, j);
          } else {
            assert old(at)[r] == at[r] && old(NodeOk(r));
          }
        }
      }
      PrefixClosedExtend(old(at), p, c, node);
    }

    /** Growing the tree or marking a node loses no live path. */
    twostate lemma LiveKept(q: string)
      requires forall w :: w in old(at) ==> w in at && at[w] == old(at[w]) && (old(at[w].isEnd) ==> at[w].isEnd)
      requires old(Live(q))
      ensures Live(q)
    {
    }

    lemma ChildIsTarget(p: string, j: nat)
      requires TreeShaped() && p in at && j < 27
      ensures |at[p].child| == 27 && at[p].child[j] == Target(at, p, j)
    {
      assert NodeOk(p);
    }

    /** One iteration of insertTrie's loop: go down to the child for c, creating it if needed.
        No word is added and no live path is lost. */
    method Descend(temp: Node, c: char, ghost p: string) returns (next: Node)
      requires TreeShaped() && Letter(c) && p in at && at[p] == temp
      modifies this`at, temp`child
      ensures TreeShaped() && p + [c] in at && at[p + [c]] == next
      ensures old(at.Keys) <= at.Keys <= old(at.Keys) + {p + [c]}
      ensures fresh(at.Values - old(at.Values))
      ensures Words() == old(Words())
      ensures forall q :: q in old(at) && old(Live(q)) ==> Live(q)
    {
      hide TreeShaped, NodeOk, Words, Live, Word;
      var position := Position(c);
      ChildIsTarget(p, position);
      if temp.child[position] == null {
        Extend(temp, c, p);
      }
      ChildIsTarget(p, position);
      next := temp.child[position];
      forall q | q in old(at) && old(Live(q))
        ensures Live(q)
      {
        LiveKept(q);
      }
    }

    lemma RootPath()
      requires TreeShaped()
      ensures "" in at && at[""] == root
    {
    }

    /** Every path beside the word has an end mark at or below it. */
    ghost predicate LiveBeside(str: string)
      reads this`at, at.Values
    {
      forall p :: p in at && p != "" ==> p <= str || Live(p)
    }

    /** The next step along the word. */
    method StepDown(temp: Node, str: string, i: nat) returns (next: Node)
      requires TreeShaped() && LiveBeside(str) && Word(str) && i < |str|
      requires str[..i] in at && at[str[..i]] == temp
      modifies this`at, temp`child
      ensures TreeShaped() && LiveBeside(str) && Words() == old(Words())
      ensures str[..i + 1] in at && at[str[..i + 1]] == next
      ensures old(at.Keys) <= at.Keys && fresh(at.Values - old(at.Values))
    {
      hide TreeShaped, NodeOk, Words, Live, Word;
      assert str[..i] + [str[i]] == str[..i + 1] <= str;
      LetterOf(str, i);
      next := Descend(temp, str[i], str[..i]);
    }

    /** insertTrie adds exactly the word, keeps the tree, and leaves no path without a word. */
    method Insert(str: string)
      requires Valid() && Word(str)
      modifies this`at, at.Values
      ensures Valid() && Words() == old(Words()) + {str}
      ensures old(at.Keys) <= at.Keys && fresh(at.Values - old(at.Values))
    {
      hide TreeShaped, NodeOk, Words, Live, Word;
      var temp := root;
      var i := 0;
      RootPath();
      assert str[..0] == "" && LiveBeside(str);
      while i < |str|
        invariant 0 <= i <= |str| && TreeShaped() && LiveBeside(str)
        invariant str[..i] in at && at[str[..i]] == temp
        invariant old(at.Keys) <= at.Keys && fresh(at.Values - old(at.Values))
        invariant Words() == old(Words())
      {
        temp := StepDown(temp, str, i);
        i := i + 1;
      }
      assert str[..i] == str;
      MarkEnd(temp, str);
    }

    /** Any sequence of insertions leaves exactly the inserted words. */
    method InsertAll(words: seq<string>)
      requires Valid() && forall i :: 0 <= i < |words| ==> Word(words[i])
      modifies this`at, at.Values
      ensures Valid() && Words() == old(Words()) + set w | w in words
      ensures fresh(at.Values - old(at.Values))
    {
      hide TreeShaped, Words, Live;
      for i := 0 to |words|
        invariant Valid() && fresh(at.Values - old(at.Values))
        invariant Words() == old(Words()) + set w | w in words[..i]
      {
        Insert(words[i]);
        assert words[..i + 1] == words[..i] + [words[i]];
      }
      assert words[..|words|] == words;
    }

    twostate lemma NodeKept(p: string)
      requires p in at && at == old(at) && at[p].child == old(at[p].child) && old(NodeOk(p))
      ensures NodeOk(p)
    {
    }

    lemma LiveAtWord(p: string, w: string)
      requires w in at && p <= w && at[w].isEnd
      ensures Live(p)
    {
    }

    twostate lemma WordsMarked(str: string)
      requires at == old(at) && str in at && at[str].isEnd
      requires forall w :: w in at && w != str ==> at[w].isEnd == old(at[w].isEnd)
      ensures Words() == old(Words()) + {str}
    {
    }

    /** temp->isEnd = 1 at the end of the word's path. */
    method MarkEnd(temp: Node, ghost str: string)
      requires TreeShaped() && str in at && at[str] == temp
      requires LiveBeside(str)
      modifies temp`isEnd
      ensures Valid() && Words() == old(Words()) + {str}
    {
      hide Word, Words, Live, NodeOk, PrefixClosed;
      temp.isEnd := true;
      forall p | p in at
        ensures NodeOk(p)
      {
        NodeKept(p);
      }
      forall p | p in at && p != ""
        ensures Live(p)
      {
        if p <= str {
          LiveAtWord(p, str);
        } else {
          LiveKept(p);
        }
      }
      WordsMarked(str);
    }

    /** searchTrie finds exactly the inserted words. */
    method Search(str: string) returns (found: bool)
      requires Valid() && LowerWord(str)
      ensures found <==> str in Words()
    {
      var temp := root;
      var i := 0;
      assert str[..0] == "";
      while i < |str|
        invariant 0 <= i <= |str|
        invariant str[..i] in at && at[str[..i]] == temp
      {
        var position := Position(str[i]);
        assert str[..i] + [str[i]] == str[..i + 1];
        ChildIsTarget(str[..i], position);
        if temp.child[position] == null {
          if str in at {
            PrefixIsPath(str[..i + 1], str);
          }
          return false;
        }
        temp := temp.child[position];
        i := i + 1;
      }
      assert str[..i] == str;
      found := temp.isEnd;
    }

    /** recursiveInsert (its parameter start is always 0): appends op in front of every tail that
        completes the path to a word, in sorted order. */
    method RecursiveInsert(temp: Node?, op: string, ghost path: string, ghost bound: nat)
      returns (ghost tails: seq<string>)
      requires Valid() && Word(path) && |path| <= bound + 1
      requires temp == if path in at then at[path] else null
      requires forall p :: p in at ==> |p| <= bound
      modifies this`completions
      ensures completions == old(completions) + Under(op, tails)
      ensures Sorted(tails) && forall i, j :: 0 <= i < j < |tails| ==> Precedes(tails[i], tails[j])
      ensures forall t: string :: t in tails <==> path + t in Words() && Word(t)
      decreases bound + 1 - |path|
    {
      hide TreeShaped, NodeOk, Words, Live, Covers, Word, Sorted, Under, Precedes;
      tails := [];
      assert Under(op, tails) == [];
      if temp == null {
        NoTails(path);
        SortedIff(tails);
        return;
      }
      if temp.isEnd {
        completions := completions + [op];
        tails := [""];
        assert op + "" == op;
        assert Under(op, tails) == [op];
      }
      OwnTail(path, tails);
      ChildIsTarget(path, 0);
      var i := 0;
      while i < 27 && temp.child[i] == null
        invariant 0 <= i <= 27
        invariant forall j: nat :: j < i ==> temp.child[j] == null
      {
        i := i + 1;
      }
      if i == 27 {
        AllNull(path, tails);
        SortedIff(tails);
        return;
      }
      var j := 0;
      while j < 27
        invariant 0 <= j <= 27
        invariant completions == old(completions) + Under(op, tails)
        invariant Sorted(tails) && Covers(tails, Words(), path, j)
      {
        ghost var below;
        AlphabetPosition(j);
        ChildIsTarget(path, j);
        WordSnoc(path, Alpha(j));
        PathBounded(path, bound);
        below := RecursiveInsert(temp.child[j], op + [Alpha(j)], path + [Alpha(j)], bound);
        CoversNext(tails, Words(), path, j, below);
        UnderUnder(old(completions), op, Alpha(j), tails, below);
        tails := tails + Under([Alpha(j)], below);
        j := j + 1;
      }
      CoversAll(tails, Words(), path);
      SortedIff(tails);
    }

    /** Where there is no node there is no word below. */
    lemma NoTails(path: string)
      requires TreeShaped() && path !in at
      ensures forall t: string :: path + t !in Words()
      ensures Sorted([])
    {
      forall t: string
        ensures path + t !in at
      {
        if path + t in at {
          assert path <= path + t;
          PrefixIsPath(path, path + t);
        }
      }
    }

    /** Before its children are visited a node contributes itself, if it ends a word. */
    lemma OwnTail(path: string, tails: seq<string>)
      requires path in at && tails == if at[path].isEnd then [""] else []
      ensures Sorted(tails) && Covers(tails, Words(), path, 0)
    {
      assert path + "" == path;
    }

    lemma PathBounded(path: string, bound: nat)
      requires path in at && forall p :: p in at ==> |p| <= bound
      ensures |path| <= bound
    {
    }

    /** The child for the first letter of a tail exists. */
    lemma ChildOnPath(path: string, t: string)
      requires TreeShaped() && path in at && path + t in at && t != "" && Letter(t[0])
      ensures |at[path].child| == 27 && at[path].child[Position(t[0])] != null
    {
      var j := Position(t[0]);
      ChildIsTarget(path, j);
      assert path + [t[0]] <= path + t;
      PrefixIsPath(path + [t[0]], path + t);
    }

    lemma AllNull(path: string, tails: seq<string>)
      requires TreeShaped() && path in at && Covers(tails, Words(), path, 0)
      requires forall j: nat :: j < 27 ==> at[path].child[j] == null
      ensures forall t: string :: t in tails <==> path + t in Words() && Word(t)
    {
      hide TreeShaped, NodeOk;
      forall t: string | path + t in Words() && Word(t)
        ensures t == ""
      {
        if t != "" {
          ChildOnPath(path, t);
        }
      }
    }

    lemma WordsAreWords()
      requires TreeShaped()
      ensures forall w :: w in Words() ==> Word(w)
    {
    }

    /** completeWord: fails exactly when no word has the prefix (the empty prefix never fails),
        and otherwise appends the completions. */
    method CompleteWord(str: string, op: string) returns (found: bool, ghost tails: seq<string>)
      requires Valid() && LowerWord(str)
      modifies this`completions
      ensures found <==> str == "" || exists w :: w in Words() && str <= w
      ensures completions == old(completions) + Under(op, tails)
      ensures Sorted(tails) && forall t: string :: t in tails <==> str + t in Words() && Word(t)
      ensures op == str ==> Lists(Under(op, tails), Words(), str)
      ensures op == str ==> forall i, j :: 0 <= i < j < |tails| ==> Precedes(Under(op, tails)[i], Under(op, tails)[j])
    {
      hide NodeOk, Words, Live, Sorted, Precedes;
      var temp := root;
      var i := 0;
      tails := [];
      PathIffWordBelow(str);
      WordsAreWords();
      assert str[..0] == "";
      while i < |str|
        invariant 0 <= i <= |str| && completions == old(completions)
        invariant str[..i] in at && at[str[..i]] == temp
      {
        var position := Position(str[i]);
        assert str[..i] + [str[i]] == str[..i + 1];
        ChildIsTarget(str[..i], position);
        if temp.child[position] == null {
          if str in at {
            PrefixIsPath(str[..i + 1], str);
          }
          NoTails(str);
          assert Under(op, tails) == [];
          ListsFromTails(tails, Words(), str);
          SortedIff(Under(str, tails));
          return false, tails;
        }
        temp := temp.child[position];
        i := i + 1;
      }
      assert str[..i] == str;
      ghost var bound := LengthBound(at.Keys);
      tails := RecursiveInsert(temp, op, str, bound);
      ListsFromTails(tails, Words(), str);
      SortedIff(Under(str, tails));
      found := true;
    }
  }

  ghost function LengthBound(s: set<string>): (b: nat)
    ensures forall p :: p in s ==> |p| <= b
  {
    if s == {} then 0
    else
      var p :| p in s;
      var b := LengthBound(s - {p});
      assert s == (s - {p}) + {p};
      if |p| <= b then b else |p|
  }
}
