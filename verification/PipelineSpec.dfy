/** How the shell cuts an argument vector into the commands of a pipeline (MyShell/shell.c). */
module PipelineSpec {

  predicate IsSep(t: string) {
    t == "|" || t == "#" || t == "S"
  }

  /** The separators, in order. */
  function Seps(args: seq<string>): (r: seq<string>)
    ensures args == [] ==> r == []
  {
    if args == [] then []
    else
      var front, t := Seps(args[..|args| - 1]), args[|args| - 1];
      if IsSep(t) then front + [t] else front
  }

  /** The commands and lastPipe after pipe_filter has looked at all of args. */
  function Cut(args: seq<string>): (r: (seq<seq<string>>, nat))
    ensures args == [] ==> r.1 == 0
    ensures args != [] ==> r.1 < |args|
    ensures |r.0| == |Seps(args)|
  {
    if args == [] then ([], 0)
    else
      var i := |args| - 1;
      var front := Cut(args[..i]);
      if IsSep(args[i]) then (front.0 + [args[Start(front.1)..i]], i) else front
  }

  /** Where the command after the separator at lastPipe begins: lastPipe = 0 means there was none. */
  function Start(lastPipe: nat): nat {
    if lastPipe == 0 then 0 else lastPipe + 1
  }

  /** All commands, with the one output_redirection adds. */
  function Pieces(args: seq<string>): (r: seq<seq<string>>)
    requires args != []
    ensures |r| == |Seps(args)| + 1
  {
    var c := Cut(args);
    c.0 + [args[c.1 + 1..]]
  }

  function Rejoin(pieces: seq<seq<string>>, seps: seq<string>): seq<string>
    requires |pieces| == |seps| + 1
  {
    var n := |seps|;
    if n == 0 then pieces[0]
    else Rejoin(pieces[..n], seps[..n - 1]) + [seps[n - 1]] + pieces[n]
  }

  // ---------------------------------------------------------------------
  // Nothing is lost, except in one family of lines
  // ---------------------------------------------------------------------

  lemma SepsSnoc(args: seq<string>, t: string)
    ensures Seps(args + [t]) == if IsSep(t) then Seps(args) + [t] else Seps(args)
  {
    hide IsSep;
    assert (args + [t])[..|args|] == args;
  }

  lemma CutStep(args: seq<string>)
    requires args != []
    ensures var i := |args| - 1; var front := Cut(args[..i]);
      && Start(front.1) <= i
      && Cut(args) == if IsSep(args[i]) then (front.0 + [args[Start(front.1)..i]], i) else front
  {
    hide IsSep, Seps;
  }

  // no recursion is needed here, and automatic induction over args is costly
  lemma {:induction false} CutSnoc(args: seq<string>, t: string)
    ensures Seps(args + [t]) == if IsSep(t) then Seps(args) + [t] else Seps(args)
    ensures var c := Cut(args);
      Cut(args + [t]) == if IsSep(t) then (c.0 + [args[Start(c.1)..]], |args|) else c
  {
    hide IsSep, Seps, Cut;
    SepsSnoc(args, t);
    var all, c := args + [t], Cut(args);
    CutStep(all);
    assert all[..|args|] == args;
    assert all[Start(c.1)..|args|] == args[Start(c.1)..];
  }

  lemma RejoinSnoc(pieces: seq<seq<string>>, seps: seq<string>, sep: string, piece: seq<string>)
    requires |pieces| == |seps| + 1
    ensures Rejoin(pieces + [piece], seps + [sep]) == Rejoin(pieces, seps) + [sep] + piece
  {
    assert (pieces + [piece])[..|seps| + 1] == pieces;
    assert (seps + [sep])[..|seps|] == seps;
  }

  lemma CutEmpty()
    ensures Seps([]) == [] && Cut([]) == ([], 0)
  {
  }

  /** The cut so far, up to the last separator, when the first token is not a separator. */
  lemma {:induction false} CutIsFaithful(args: seq<string>)
    requires args != [] && !IsSep(args[0])
    ensures var c, m := Cut(args), |Seps(args)|;
      && (m == 0 ==> c.1 == 0)
      && (m > 0 ==> c.1 > 0 && args[c.1] == Seps(args)[m - 1] && Rejoin(c.0, Seps(args)[..m - 1]) == args[..c.1])
  {
    hide Rejoin, Cut, Seps, IsSep;
    var n := |args| - 1;
    var front, t := args[..n], args[n];
    assert args == front + [t];
    CutSnoc(front, t);
    if n == 0 {
      CutEmpty();
    } else {
      CutIsFaithful(front);
      var c, m := Cut(front), |Seps(front)|;
      if IsSep(t) {
        assert Seps(args)[..m] == Seps(front);
        if m == 0 {
          RejoinOne(front);
          assert [] + [front] == [front] && Seps(args)[..0] == [];
        } else {
          RejoinSnoc(c.0, Seps(front)[..m - 1], Seps(front)[m - 1], front[c.1 + 1..]);
          assert Seps(front)[..m - 1] + [Seps(front)[m - 1]] == Seps(front);
          assert front[..c.1] + [front[c.1]] + front[c.1 + 1..] == front;
        }
      } else if m > 0 {
        assert args[..c.1] == front[..c.1];
      }
    }
  }

  /** When the first token is a separator: with a single separator the cut is harmless, from the
      second one on one token too many is copied. */
  lemma {:induction false} CutAfterLeadingSep(args: seq<string>)
    requires args != [] && IsSep(args[0])
    ensures var c, m := Cut(args), |Seps(args)|;
      && m >= 1
      && (m == 1 ==> c == ([[]], 0) && Seps(args) == [args[0]])
      && (m > 1 ==> c.1 > 0 && |Rejoin(c.0, Seps(args)[..m - 1])| == c.1 + 1)
  {
    hide Rejoin, Cut, Seps, IsSep;
    var n := |args| - 1;
    var front, t := args[..n], args[n];
    assert args == front + [t];
    CutSnoc(front, t);
    if n == 0 {
      CutEmpty();
      assert front == [] && [] + [front] == [[]] && [] + [t] == [args[0]];
    } else {
      CutAfterLeadingSep(front);
      var c, m := Cut(front), |Seps(front)|;
      if IsSep(t) {
        assert Seps(args)[..m] == Seps(front);
        if m == 1 {
          RejoinSnoc([[]], [], args[0], front);
          RejoinOne([]);
          assert [[]] + [front] == [[], front] && [] + [args[0]] == Seps(front);
        } else {
          RejoinSnoc(c.0, Seps(front)[..m - 1], Seps(front)[m - 1], front[c.1 + 1..]);
          assert Seps(front)[..m - 1] + [Seps(front)[m - 1]] == Seps(front);
        }
      }
    }
  }

  lemma RejoinOne(piece: seq<string>)
    ensures Rejoin([piece], []) == piece
  {
  }

  lemma RejoinPieces(args: seq<string>)
    requires Seps(args) != []
    ensures var c, s := Cut(args), Seps(args);
      Rejoin(Pieces(args), s) == Rejoin(c.0, s[..|s| - 1]) + [s[|s| - 1]] + args[c.1 + 1..]
  {
    hide Rejoin, Cut, Seps;
    var c, s := Cut(args), Seps(args);
    var m := |s|;
    RejoinSnoc(c.0, s[..m - 1], s[m - 1], args[c.1 + 1..]);
    assert s[..m - 1] + [s[m - 1]] == s;
  }

  /** The commands rejoined with their separators are the argument vector exactly when the line
      does not both begin with a separator and contain another one. */
  lemma NothingLostIff(args: seq<string>)
    requires Seps(args) != []
    ensures Rejoin(Pieces(args), Seps(args)) == args <==> !(IsSep(args[0]) && |Seps(args)| >= 2)
  {
    hide Rejoin, Cut, Seps, Pieces, IsSep;
    var c, m := Cut(args), |Seps(args)|;
    RejoinPieces(args);
    if !IsSep(args[0]) {
      CutIsFaithful(args);
      assert args[..c.1] + [args[c.1]] + args[c.1 + 1..] == args;
    } else {
      CutAfterLeadingSep(args);
      if m == 1 {
        RejoinOne([]);
        assert Seps(args)[..0] == [] && [] + [args[0]] + args[1..] == args;
      }
    }
  }

  /** A line of the failing family: the second command begins with the separator itself. */
  lemma LeadingSeparatorCounterexample()
    ensures Cut(["|", "a", "|"]).0 == [[], ["|", "a"]]
    ensures Rejoin(Pieces(["|", "a", "|"]), Seps(["|", "a", "|"])) != ["|", "a", "|"]
  {
    hide Rejoin, Cut, Seps, Pieces;
    var one, two, three := ["|"], ["|", "a"], ["|", "a", "|"];
    CutEmpty();
    CutSnoc([], "|");
    CutSnoc(one, "a");
    CutSnoc(two, "|");
    assert [] + ["|"] == one && one + ["a"] == two && two + ["|"] == three;
    assert one + ["|"] == ["|", "|"] && [[]] + [two] == [[], two];
    NothingLostIff(three);
  }

  /** No separator follows the last one. */
  lemma {:induction false} NoSepAfterLast(args: seq<string>, k: nat)
    requires Seps(args) != [] && Cut(args).1 < k < |args|
    ensures !IsSep(args[k])
  {
    var n := |args| - 1;
    var front := args[..n];
    assert args == front + [args[n]];
    CutSnoc(front, args[n]);
    if k < n {
      if Seps(front) == [] {
        NoSeps(front, k);
      } else {
        NoSepAfterLast(front, k);
      }
    }
  }

  lemma {:induction false} NoSeps(args: seq<string>, k: nat)
    requires Seps(args) == [] && k < |args|
    ensures !IsSep(args[k])
  {
    var n := |args| - 1;
    assert args == args[..n] + [args[n]];
    CutSnoc(args[..n], args[n]);
    if k < n {
      NoSeps(args[..n], k);
    }
  }

  /** Input redirections in front of a separator: the argument two before it is "<". */
  function InputRedirects(args: seq<string>): nat {
    if args == [] then 0
    else
      var i := |args| - 1;
      InputRedirects(args[..i]) + if IsSep(args[i]) && i > 2 && args[i - 2] == "<" then 1 else 0
  }

  lemma RedirectsSnoc(args: seq<string>, t: string)
    ensures InputRedirects(args + [t])
            == InputRedirects(args) + if IsSep(t) && |args| > 2 && args[|args| - 2] == "<" then 1 else 0
  {
    assert (args + [t])[..|args|] == args;
  }

  /** A line that records the redirection error: both of its first two commands read from a file. */
  lemma RedirectErrorExample()
    ensures InputRedirects(["a", "<", "f", "|", "b", "<", "g", "|", "c"]) == 2
  {
    hide InputRedirects;
    var two, three, four := ["a", "<"], ["a", "<", "f"], ["a", "<", "f", "|"];
    var five, six, seven := four + ["b"], four + ["b", "<"], four + ["b", "<", "g"];
    RedirectsEmpty();
    RedirectsSnoc([], "a");
    RedirectsSnoc(["a"], "<");
    RedirectsSnoc(two, "f");
    RedirectsSnoc(three, "|");
    RedirectsSnoc(four, "b");
    RedirectsSnoc(five, "<");
    RedirectsSnoc(six, "g");
    RedirectsSnoc(seven, "|");
    RedirectsSnoc(seven + ["|"], "c");
    assert [] + ["a"] == ["a"] && ["a"] + ["<"] == two && two + ["f"] == three && three + ["|"] == four;
    assert five + ["<"] == six && six + ["g"] == seven;
    assert seven + ["|"] + ["c"] == ["a", "<", "f", "|", "b", "<", "g", "|", "c"];
  }

  lemma RedirectsEmpty()
    ensures InputRedirects([]) == 0
  {
  }

  // ---------------------------------------------------------------------
  // Commands that are too long for their row
  // ---------------------------------------------------------------------

  /** The slots of a row of `commands`. */
  const WIDTH: nat := 20

  ghost predicate Short(pieces: seq<seq<string>>) {
    forall k :: 0 <= k < |pieces| ==> |pieces[k]| < WIDTH
  }

  /** pipe_filter writes outside a row: before it stops at a second input redirection it comes to a
      separator with too long a command in front. */
  function Overflows(args: seq<string>): bool {
    if args == [] then false
    else
      var i := |args| - 1;
      || Overflows(args[..i])
      || (IsSep(args[i]) && InputRedirects(args) < 2 && i - Start(Cut(args[..i]).1) >= WIDTH)
  }

  predicate LastTooLong(args: seq<string>) {
    |args| - Cut(args).1 - 1 >= WIDTH
  }

  lemma {:induction false} OverflowsIff(args: seq<string>)
    requires InputRedirects(args) < 2
    ensures Overflows(args) <==> !Short(Cut(args).0)
  {
    hide IsSep, Seps;
    if args != [] {
      var i := |args| - 1;
      OverflowsIff(args[..i]);
      CutStep(args);
      var c, d := Cut(args[..i]).0, Cut(args).0;
      if IsSep(args[i]) {
        ShortSnoc(c, args[Start(Cut(args[..i]).1)..i]);
      }
    }
  }

  lemma ShortSnoc(pieces: seq<seq<string>>, piece: seq<string>)
    ensures Short(pieces + [piece]) <==> Short(pieces) && |piece| < WIDTH
  {
    var all := pieces + [piece];
    if Short(all) {
      assert |all[|pieces|]| < WIDTH;
      forall k | 0 <= k < |pieces|
        ensures |pieces[k]| < WIDTH
      {
        assert all[k] == pieces[k];
      }
    }
  }

  /** Everything fits if and only if all commands are shorter than a row. */
  lemma FitsIff(args: seq<string>)
    requires Seps(args) != [] && InputRedirects(args) < 2
    ensures !Overflows(args) && !LastTooLong(args) <==> Short(Pieces(args))
    ensures Short(Pieces(args)) <==> forall k :: 0 <= k < |Pieces(args)| ==> |Pieces(args)[k]| < 20
  {
    hide Seps, Cut, Overflows;
    OverflowsIff(args);
    ShortSnoc(Cut(args).0, args[Cut(args).1 + 1..]);
  }

  // ---------------------------------------------------------------------
  // The separators and redirections, counted
  // ---------------------------------------------------------------------

  /** Seps consists of separators, as many as the argument vector has, and the last of them is the
      last one there. */
  lemma {:induction false} SepsCounted(args: seq<string>)
    ensures |Seps(args)| == multiset(args)["|"] + multiset(args)["#"] + multiset(args)["S"]
    ensures forall t :: t in Seps(args) ==> t == "|" || t == "#" || t == "S"
    ensures Seps(args) != [] ==> args[Cut(args).1] == Seps(args)[|Seps(args)| - 1]
  {
    hide Seps, Cut;
    if args == [] {
      CutEmpty();
    } else {
      var front, t := args[..|args| - 1], args[|args| - 1];
      assert args == front + [t];
      SepsCounted(front);
      CutSnoc(front, t);
      SepIsNot(t);
    }
  }

  lemma SepIsNot(t: string)
    ensures multiset{t}["|"] + multiset{t}["#"] + multiset{t}["S"] == if IsSep(t) then 1 else 0
  {
    assert "|"[0] != "#"[0] && "|"[0] != "S"[0] && "#"[0] != "S"[0];
  }

  /** The places where the argument two before a separator, and not the very first, is "<". */
  ghost function RedirectPlaces(args: seq<string>): set<int> {
    set i | 0 <= i < |args| && RedirectAt(args, i)
  }

  predicate RedirectAt(args: seq<string>, i: nat)
    requires i < |args|
  {
    i > 2 && args[i] in {"|", "#", "S"} && args[i - 2] == "<"
  }

  lemma RedirectAtFront(args: seq<string>, n: nat, i: nat)
    requires i < n <= |args|
    ensures RedirectAt(args, i) == RedirectAt(args[..n], i)
  {
  }

  lemma PlacesStep(args: seq<string>, n: nat)
    requires |args| == n + 1
    ensures RedirectPlaces(args) == RedirectPlaces(args[..n]) + if RedirectAt(args, n) then {n} else {}
    ensures n !in RedirectPlaces(args[..n])
  {
    hide RedirectAt;
    forall i | 0 <= i < n
      ensures RedirectAt(args, i) == RedirectAt(args[..n], i)
    {
      RedirectAtFront(args, n, i);
    }
  }

  lemma RedirectAtIs(args: seq<string>, i: nat)
    requires i < |args|
    ensures RedirectAt(args, i) <==> IsSep(args[i]) && i > 2 && args[i - 2] == "<"
  {
  }

  /** InputRedirects is their number. */
  lemma {:induction false} RedirectsCounted(args: seq<string>)
    ensures InputRedirects(args) == |RedirectPlaces(args)|
  {
    hide RedirectAt, IsSep;
    if args == [] {
      assert RedirectPlaces(args) == {};
    } else {
      var n := |args| - 1;
      RedirectsCounted(args[..n]);
      PlacesStep(args, n);
      RedirectAtIs(args, n);
    }
  }
}
