/** The pipeline globals of MyShell/shell.c and the loops that fill them. */
module Pipeline {
  import opened Tokenizer
  import opened PipelineSpec

  /** enum ptype. */
  datatype PipeType = NONE | PIPE | MSG | SHM

  /** One row of `commands`: 20 slots, or the null pointer that ends the array. */
  datatype Row = Cells(cells: seq<Slot>) | NullRow

  function FreshRow(): (r: Row)
    ensures r.Cells? && |r.cells| == WIDTH
  {
    Cells(seq(WIDTH, _ => Unset))
  }

  /** The row holds the command, null-terminated. */
  ghost predicate Holds(row: Row, piece: seq<string>) {
    && row.Cells? && |row.cells| == WIDTH && |piece| < WIDTH
    && (forall k :: 0 <= k < |piece| ==> row.cells[k] == Text(piece[k]))
    && row.cells[|piece|] == Null
  }

  function TypeOf(seps: seq<string>): PipeType {
    if seps == [] then NONE
    else if seps[|seps| - 1] == "|" then PIPE
    else if seps[|seps| - 1] == "#" then MSG
    else SHM
  }

  /** The last of the three separators. */
  ghost predicate IsLastSep(args: seq<string>, i: int) {
    && 0 <= i < |args| && args[i] in {"|", "#", "S"}
    && forall j :: i < j < |args| ==> args[j] !in {"|", "#", "S"}
  }

  /** The number of separators, and the type of pipe the last one stands for. */
  ghost predicate Counted(args: seq<string>, counter: nat, kind: PipeType) {
    && counter == multiset(args)["|"] + multiset(args)["#"] + multiset(args)["S"]
    && (counter == 0 ==> kind == NONE)
    && forall i :: IsLastSep(args, i) ==>
         kind == if args[i] == "|" then PIPE else if args[i] == "#" then MSG else SHM
  }

  lemma TypeOfLast(args: seq<string>)
    ensures Seps(args) == [] ==> TypeOf(Seps(args)) == NONE
    ensures forall i :: IsLastSep(args, i) ==>
      TypeOf(Seps(args)) == if args[i] == "|" then PIPE else if args[i] == "#" then MSG else SHM
  {
    hide Seps, Cut;
    SepsCounted(args);
    forall i | IsLastSep(args, i)
      ensures Seps(args) != [] && Cut(args).1 == i
    {
      if Seps(args) == [] {
        NoSeps(args, i);
      } else if i < Cut(args).1 {
        var last := Seps(args)[|Seps(args)| - 1];
        assert last in Seps(args);
      } else if i > Cut(args).1 {
        NoSepAfterLast(args, i);
      }
    }
  }

  lemma PrefixStep(args: seq<string>, i: nat)
    requires i < |args|
    ensures args[..i + 1][..i] == args[..i] && args[..i + 1][i] == args[i]
    ensures Seps(args[..i + 1]) == if IsSep(args[i]) then Seps(args[..i]) + [args[i]] else Seps(args[..i])
    ensures var c := Cut(args[..i]);
      Cut(args[..i + 1]) == if IsSep(args[i]) then (c.0 + [args[Start(c.1)..i]], i) else c
    ensures InputRedirects(args[..i + 1]) ==
      InputRedirects(args[..i]) + if IsSep(args[i]) && i > 2 && args[i - 2] == "<" then 1 else 0
    ensures Overflows(args[..i + 1]) == (Overflows(args[..i]) || (
      IsSep(args[i]) && InputRedirects(args[..i + 1]) < 2 && i - Start(Cut(args[..i]).1) >= WIDTH))
  {
    var front := args[..i];
    assert args[..i + 1] == front + [args[i]];
    assert args[..i + 1][..i] == front;
    CutSnoc(front, args[i]);
    assert front[Start(Cut(front).1)..] == args[Start(Cut(front).1)..i];
  }

  /** Shorter prefixes have fewer separators, so their commands are among the final ones. */
  lemma {:induction false} CutPrefix(args: seq<string>, i: nat)
    requires i <= |args|
    ensures Cut(args[..i]).0 <= Cut(args).0 && InputRedirects(args[..i]) <= InputRedirects(args)
    ensures Overflows(args[..i]) ==> Overflows(args)
    ensures InputRedirects(args[..i]) >= 2 ==> Overflows(args) == Overflows(args[..i])
    decreases |args| - i
  {
    if i == |args| {
      assert args[..i] == args;
    } else {
      PrefixStep(args, i);
      CutPrefix(args, i + 1);
    }
  }

  class Shell {
    var argVector: seq<string>      // without its null terminator
    var commands: array<Row>
    var pipeType: PipeType
    var pipeCount: nat
    var pipeargCount: nat
    var lastPipe: nat
    var redirectionIn: bool
    var redirectionOut: bool
    var badRedirect: bool

    constructor ()
      ensures lastPipe == 0 && !badRedirect
    {
      argVector := [];
      commands := new Row[0];
      pipeType := NONE;
      pipeCount, pipeargCount, lastPipe := 0, 0, 0;
      redirectionIn, redirectionOut, badRedirect := false, false, false;
    }

    /** count_pipes: allocates two rows more than there are separators. */
    method CountPipes() returns (counter: nat)
      requires pipeType == NONE
      modifies this`pipeType, this`commands
      ensures counter == |Seps(argVector)| && pipeType == TypeOf(Seps(argVector))
      ensures Counted(argVector, counter, pipeType)
      ensures counter > 0 ==> fresh(commands) && commands.Length == counter + 2
      ensures forall r :: counter > 0 && 0 <= r < commands.Length ==> commands[r] == FreshRow()
    {
      counter := 0;
      assert argVector[..0] == [];
      for i := 0 to |argVector|
        invariant counter == |Seps(argVector[..i])| && pipeType == TypeOf(Seps(argVector[..i]))
      {
        PrefixStep(argVector, i);
        if argVector[i] == "|" || argVector[i] == "#" || argVector[i] == "S" {
          counter := counter + 1;
          pipeType := if argVector[i] == "|" then PIPE else if argVector[i] == "#" then MSG else SHM;
        }
      }
      assert argVector[..|argVector|] == argVector;
      SepsCounted(argVector);
      TypeOfLast(argVector);
      if counter > 0 {
        commands := new Row[counter + 2](_ => FreshRow());
      }
    }

    /** Copies argVector[from..to] into a row and terminates it. */
    method CopyPiece(row: nat, from: nat, to: nat)
      requires row < commands.Length && commands[row].Cells? && |commands[row].cells| == WIDTH
      requires from <= to <= |argVector| && to - from < WIDTH
      modifies commands
      ensures Holds(commands[row], argVector[from..to])
      ensures forall r :: 0 <= r < commands.Length && r != row ==> commands[r] == old(commands[r])
    {
      for a := from to to
        invariant commands[row].Cells? && |commands[row].cells| == WIDTH
        invariant forall k :: 0 <= k < a - from ==> commands[row].cells[k] == Text(argVector[from + k])
        invariant forall r :: 0 <= r < commands.Length && r != row ==> commands[r] == old(commands[r])
      {
        commands[row] := Cells(commands[row].cells[a - from := Text(argVector[a])]);
      }
      commands[row] := Cells(commands[row].cells[to - from := Null]);
    }

    /** The rows filled so far hold the commands of the prefix scanned so far. */
    ghost predicate RowsHold(pieces: seq<seq<string>>)
      reads this`commands, commands
    {
      |pieces| <= commands.Length && forall r :: 0 <= r < |pieces| ==> Holds(commands[r], pieces[r])
    }

    ghost predicate RowsFree(n: nat)
      reads this`commands, commands
    {
      forall r :: n <= r < commands.Length ==> commands[r] == FreshRow()
    }

    /** pipe_filter, at the start of a turn: cuts the argument vector at its separators, unless a
        second input redirection in front of a separator stops it.  Where the code would write
        outside a row the model stops, with `overflow` set. */
    method PipeFilter() returns (overflow: bool)
      requires lastPipe == 0 && pipeCount == 0 && pipeargCount == 0 && !redirectionIn && pipeType == NONE
      modifies this`commands, this`pipeType, this`pipeCount, this`pipeargCount, this`lastPipe,
               this`redirectionIn, this`badRedirect
      ensures overflow == Overflows(argVector)
      ensures !overflow ==> badRedirect == (old(badRedirect) || InputRedirects(argVector) >= 2)
      ensures pipeType == TypeOf(Seps(argVector))
      ensures !overflow && InputRedirects(argVector) < 2 ==>
        && pipeCount == |Seps(argVector)| && lastPipe == Cut(argVector).1 && pipeargCount == |argVector|
        && (pipeCount > 0 ==> fresh(commands) && commands.Length == pipeCount + 2
                              && RowsHold(Cut(argVector).0) && RowsFree(pipeCount))
      ensures !overflow ==> redirectionIn == (InputRedirects(argVector) >= 1)
      ensures !overflow && InputRedirects(argVector) >= 2 ==> pipeargCount > 0 && StoppedAt(pipeargCount - 1)
    {
      hide Seps, Cut, InputRedirects, Holds, Overflows, Scanning, StoppedAt, Counted, TypeOf;
      var counter := CountPipes();
      ScanStarts();
      overflow := false;
      var stopped := false;
      var i := 0;
      while i < |argVector| && !stopped && !overflow
        invariant 0 <= i <= |argVector|
        invariant pipeType == TypeOf(Seps(argVector)) && (Seps(argVector) != [] ==> fresh(commands))
        invariant overflow ==> Overflows(argVector)
        invariant stopped ==> !overflow && !Overflows(argVector) && badRedirect && InputRedirects(argVector) >= 2
        invariant stopped ==> redirectionIn && pipeargCount > 0 && StoppedAt(pipeargCount - 1)
        invariant !stopped && !overflow ==> Scanning(i) && badRedirect == old(badRedirect)
      {
        stopped, overflow := AtToken(i);
        i := i + 1;
      }
      if !stopped && !overflow {
        ScanEnds();
      }
    }

    /** The scan has come to token i. */
    ghost predicate Scanning(i: nat)
      reads this`argVector, this`pipeCount, this`lastPipe, this`pipeargCount, this`redirectionIn, this`commands, commands
    {
      && Filtered(i) && pipeargCount == i && !Overflows(argVector[..i])
      && InputRedirects(argVector[..i]) == (if redirectionIn then 1 else 0)
    }

    /** The scan has been broken off at the second input redirection, the separator i: nothing from
        there on has been cut. */
    ghost predicate StoppedAt(i: nat)
      reads this`argVector, this`pipeCount, this`lastPipe
    {
      && i < |argVector| && InputRedirects(argVector[..i]) == 1 && InputRedirects(argVector[..i + 1]) == 2
      && pipeCount == |Seps(argVector[..i])| && lastPipe == Cut(argVector[..i]).1
    }

    lemma ScanStarts()
      requires lastPipe == 0 && pipeCount == 0 && pipeargCount == 0 && !redirectionIn
      requires Seps(argVector) != [] ==> commands.Length == |Seps(argVector)| + 2
      requires forall r :: Seps(argVector) != [] && 0 <= r < commands.Length ==> commands[r] == FreshRow()
      ensures Scanning(0)
    {
      assert argVector[..0] == [];
    }

    lemma ScanEnds()
      requires Scanning(|argVector|)
      ensures !Overflows(argVector) && InputRedirects(argVector) < 2 && pipeargCount == |argVector|
      ensures redirectionIn == (InputRedirects(argVector) >= 1)
      ensures pipeCount == |Seps(argVector)| && lastPipe == Cut(argVector).1
      ensures pipeCount > 0 ==>
        commands.Length == pipeCount + 2 && RowsHold(Cut(argVector).0) && RowsFree(pipeCount)
    {
      hide Seps, Cut, InputRedirects, Holds, Overflows;
      assert argVector[..|argVector|] == argVector;
    }

    /** The body of the loop of pipe_filter. */
    method AtToken(i: nat) returns (stopped: bool, overflow: bool)
      requires i < |argVector| && Scanning(i)
      modifies this`pipeCount, this`pipeargCount, this`lastPipe, this`redirectionIn, this`badRedirect,
               if Seps(argVector) == [] then {} else {commands}
      ensures overflow ==> !stopped && Overflows(argVector)
      ensures stopped ==> !Overflows(argVector) && badRedirect && InputRedirects(argVector) >= 2
      ensures stopped ==> redirectionIn && pipeargCount == i + 1 && StoppedAt(i)
      ensures !stopped && !overflow ==> Scanning(i + 1) && badRedirect == old(badRedirect)
    {
      hide Seps, Cut, InputRedirects, Holds, Overflows;
      stopped, overflow := false, false;
      PrefixStep(argVector, i);
      CutPrefix(argVector, i + 1);
      pipeargCount := pipeargCount + 1;
      if argVector[i] == "|" || argVector[i] == "#" || argVector[i] == "S" {
        if i > 2 && argVector[i - 2] == "<" {
          if !redirectionIn {
            redirectionIn := true;
          } else {
            badRedirect := true;
            stopped := true;
          }
        }
        if !stopped {
          RowFor(argVector, i);
          overflow := CutAt(i);
        }
      }
    }

    /** The state after the tokens before i: the rows filled so far hold the commands of that prefix. */
    ghost predicate Filtered(i: nat)
      reads this`argVector, this`pipeCount, this`lastPipe, this`commands, commands
    {
      && i <= |argVector|
      && pipeCount == |Seps(argVector[..i])| && lastPipe == Cut(argVector[..i]).1
      && (Seps(argVector) != [] ==>
            commands.Length == |Seps(argVector)| + 2 && RowsHold(Cut(argVector[..i]).0) && RowsFree(pipeCount))
    }

    /** The body of pipe_filter at a separator: the tokens since the last one become a command. */
    method CutAt(i: nat) returns (overflow: bool)
      requires i < |argVector| && IsSep(argVector[i]) && Filtered(i)
      modifies this`pipeCount, this`lastPipe, commands
      ensures overflow == (i - Start(Cut(argVector[..i]).1) >= WIDTH)
      ensures !overflow ==> Filtered(i + 1)
    {
      hide Seps, Cut, Holds, IsSep, InputRedirects, Overflows;
      PrefixStep(argVector, i);
      RowFor(argVector, i);
      overflow := i - (if lastPipe == 0 then 0 else lastPipe + 1) >= WIDTH;
      if overflow {
        return;
      }
      if lastPipe == 0 {
        CopyPiece(pipeCount, 0, i);
      } else {
        CopyPiece(pipeCount, lastPipe + 1, i);
      }
      lastPipe := i;
      pipeCount := pipeCount + 1;
    }

    /** output_redirection up to the execution of the pipeline: the last command and the null row. */
    method OutputRedirection() returns (overflow: bool)
      requires Seps(argVector) != []
      requires pipeCount == |Seps(argVector)| && lastPipe == Cut(argVector).1 && pipeargCount == |argVector|
      requires commands.Length == pipeCount + 2 && RowsHold(Cut(argVector).0) && RowsFree(pipeCount)
      modifies this`redirectionOut, this`badRedirect, commands
      ensures overflow == LastTooLong(argVector)
      ensures overflow ==> badRedirect == old(badRedirect)
      ensures var redirects := |argVector| >= 2 && argVector[|argVector| - 2] in {">", ">>"};
        !overflow ==>
          && badRedirect == (old(badRedirect) || (old(redirectionOut) && redirects))
          && redirectionOut == (old(redirectionOut) || redirects)
      ensures !overflow ==> RowsHold(Pieces(argVector)) && commands[pipeCount + 1] == NullRow
    {
      hide Seps, Cut, Holds;
      overflow := |argVector| - lastPipe - 1 >= WIDTH;
      if overflow {
        return;
      }
      forall k | lastPipe < k < |argVector|
        ensures !IsSep(argVector[k])
      {
        NoSepAfterLast(argVector, k);
      }
      CopyLast();
      commands[pipeCount + 1] := NullRow;
      if pipeargCount >= 2 && (argVector[pipeargCount - 2] == ">" || argVector[pipeargCount - 2] == ">>") {
        if !redirectionOut {
          redirectionOut := true;
        } else {
          badRedirect := true;
        }
      }
    }

    /** The copy loop of output_redirection, which skips separators. */
    method CopyLast()
      requires pipeCount < commands.Length && lastPipe < |argVector| && |argVector| - lastPipe - 1 < WIDTH
      requires commands[pipeCount].Cells? && |commands[pipeCount].cells| == WIDTH
      requires forall k :: lastPipe < k < |argVector| ==> !IsSep(argVector[k])
      modifies commands
      ensures Holds(commands[pipeCount], argVector[lastPipe + 1..])
      ensures forall r :: 0 <= r < commands.Length && r != pipeCount ==> commands[r] == old(commands[r])
    {
      var from := lastPipe + 1;
      for a := from to |argVector|
        invariant commands[pipeCount].Cells? && |commands[pipeCount].cells| == WIDTH
        invariant forall k :: 0 <= k < a - from ==> commands[pipeCount].cells[k] == Text(argVector[from + k])
        invariant forall r :: 0 <= r < commands.Length && r != pipeCount ==> commands[r] == old(commands[r])
      {
        if argVector[a] != "|" && argVector[a] != "#" && argVector[a] != "S" {
          commands[pipeCount] := Cells(commands[pipeCount].cells[a - from := Text(argVector[a])]);
        }
      }
      commands[pipeCount] := Cells(commands[pipeCount].cells[|argVector| - from := Null]);
    }

    /** One turn of the read loop, from the resets at its start.  `handledEarly` says that the turn
        ends before pipe_filter (builtin, fg, bg, daemonize).  lastPipe is 0 again afterwards.  Once
        a redirection error has been recorded, neither pipelines nor ordinary commands get
        through any more.  Otherwise a line with a separator is executed as a pipeline, whose rows
        hold the commands, null-terminated, and whose array ends with the null row in its last
        slot; a line without one goes on as an ordinary command.  `overflow` says that the code
        would write outside a row, which happens exactly for commands of WIDTH tokens or more that
        are reached. */
    method Turn(args: seq<string>, handledEarly: bool) returns (executed: bool, ordinary: bool, overflow: bool)
      requires lastPipe == 0
      modifies this
      ensures argVector == args
      ensures overflow <==>
        !handledEarly && (Overflows(args) || (Seps(args) != [] && !badRedirect && LastTooLong(args)))
      ensures !overflow ==>
        && lastPipe == 0
        && badRedirect == (old(badRedirect) || (!handledEarly && InputRedirects(args) >= 2))
        && (executed <==> !handledEarly && Seps(args) != [] && !badRedirect)
        && (ordinary <==> !handledEarly && Seps(args) == [] && !badRedirect)
      ensures overflow && !Overflows(args) ==> badRedirect == (old(badRedirect) || InputRedirects(args) >= 2)
      ensures overflow ==> !executed && !ordinary
      ensures executed ==>
        && Short(Pieces(args))
        && commands.Length == |Seps(args)| + 2 && RowsHold(Pieces(args)) && commands[|Seps(args)| + 1] == NullRow
        && pipeCount == |Seps(args)| && pipeType == TypeOf(Seps(args))
        && (Rejoin(Pieces(args), Seps(args)) == args <==> !(IsSep(args[0]) && |Seps(args)| >= 2))
    {
      hide Seps, Cut, InputRedirects, Rejoin, Pieces, Holds, Overflows, LastTooLong, Short;
      pipeType := NONE;
      argVector := args;
      redirectionIn, redirectionOut := false, false;
      pipeCount, pipeargCount := 0, 0;
      executed, ordinary, overflow := false, false, false;
      if handledEarly {
        return;
      }
      overflow := PipeFilter();
      if overflow {
        return;
      }
      if badRedirect {
        lastPipe := 0;
        return;
      }
      if pipeCount > 0 {
        overflow := OutputRedirection();
        if overflow {
          return;
        }
        NothingLostIff(args);
        FitsIff(args);
        executed := true;
      } else {
        ordinary := true;
      }
      lastPipe := 0;
    }
  }

  /** There is a row for the command in front of a separator. */
  lemma RowFor(args: seq<string>, i: nat)
    requires i < |args| && IsSep(args[i])
    ensures Seps(args) != [] && |Seps(args[..i])| < |Seps(args)| && Start(Cut(args[..i]).1) <= i
  {
    hide IsSep, InputRedirects, Overflows;
    PrefixStep(args, i);
    CutPrefix(args, i + 1);
  }
}
