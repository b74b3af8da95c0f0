/** Splitting a command line into arguments, and the two passes over it (MyShell/shell.c). */
module Tokenizer {

  /** Lines are C strings without the terminating NUL; a character out of range is that NUL. */
  function At(s: string, i: nat): char {
    if i < |s| then s[i] else '\0'
  }

  ghost predicate CString(s: string) {
    forall i :: 0 <= i < |s| ==> s[i] != '\0'
  }

  // ---------------------------------------------------------------------
  // What the passes are meant to compute
  // ---------------------------------------------------------------------

  /** The line with every run of spaces collapsed to a single one. */
  function Collapse(s: string): (r: string)
    ensures |r| <= |s|
  {
    if s == [] then []
    else if s[0] == ' ' && At(s, 1) == ' ' then Collapse(s[1..])
    else [s[0]] + Collapse(s[1..])
  }

  /** Cuts at every space. */
  function Split(s: string): (r: seq<string>)
    ensures |r| >= 1
  {
    if s == [] then [""]
    else
      var init, c := Split(s[..|s| - 1]), s[|s| - 1];
      if c == ' ' then init + [""]
      else WithLast(init, [c])
  }

  /** The last piece extended by t. */
  function WithLast(pieces: seq<string>, t: string): (r: seq<string>)
    requires pieces != []
    ensures |r| == |pieces|
  {
    pieces[|pieces| - 1 := pieces[|pieces| - 1] + t]
  }

  /** The join loop of shellShm. */
  function Join(tokens: seq<string>): string {
    if tokens == [] then ""
    else if |tokens| == 1 then tokens[0]
    else Join(tokens[..|tokens| - 1]) + " " + tokens[|tokens| - 1]
  }

  function Tokens(line: string): seq<string> {
    Split(Collapse(line))
  }

  predicate SpaceFree(t: string) {
    forall i :: 0 <= i < |t| ==> t[i] != ' '
  }

  // ---------------------------------------------------------------------
  // Split and Join undo each other
  // ---------------------------------------------------------------------

  lemma JoinSnoc(tokens: seq<string>, t: string)
    requires tokens != []
    ensures Join(tokens + [t]) == Join(tokens) + " " + t
  {
    assert (tokens + [t])[..|tokens|] == tokens;
  }

  lemma JoinExtendLast(tokens: seq<string>, c: char)
    requires tokens != []
    ensures Join(WithLast(tokens, [c])) == Join(tokens) + [c]
  {
    var n := |tokens| - 1;
    var more := WithLast(tokens, [c]);
    if n > 0 {
      assert more[..n] == tokens[..n];
    }
  }

  lemma {:induction false} JoinSplit(s: string)
    ensures Join(Split(s)) == s
  {
    hide WithLast;
    if s != [] {
      var front, c := s[..|s| - 1], s[|s| - 1];
      assert s == front + [c];
      JoinSplit(front);
      JoinSplitStep(front, c);
    }
  }

  lemma JoinSplitStep(front: string, c: char)
    requires Join(Split(front)) == front
    ensures Join(Split(front + [c])) == front + [c]
  {
    hide Join, Split, WithLast;
    if c == ' ' {
      SplitSpace(front);
      JoinSnoc(Split(front), "");
      assert front + [c] == front + " " == front + " " + "";
    } else {
      SplitChar(front, c);
      JoinExtendLast(Split(front), c);
    }
  }

  lemma SplitSpace(s: string)
    ensures Split(s + " ") == Split(s) + [""]
  {
    assert (s + " ")[..|s|] == s;
  }

  lemma SplitChar(s: string, c: char)
    requires c != ' '
    ensures Split(s + [c]) == WithLast(Split(s), [c])
  {
    assert (s + [c])[..|s|] == s;
  }

  lemma WithLastLaws(pieces: seq<string>, a: string, b: string)
    requires pieces != []
    ensures WithLast(pieces, "") == pieces
    ensures WithLast(WithLast(pieces, a), b) == WithLast(pieces, a + b)
  {
    var last := pieces[|pieces| - 1];
    assert last + "" == last && last + a + b == last + (a + b);
  }

  lemma {:induction false} SplitAppend(s: string, t: string)
    requires SpaceFree(t)
    ensures Split(s + t) == WithLast(Split(s), t)
  {
    hide Split, WithLast;
    if t == [] {
      assert s + t == s;
      WithLastLaws(Split(s), "", "");
    } else {
      var front, c := t[..|t| - 1], t[|t| - 1];
      SplitAppend(s, front);
      SplitChar(s + front, c);
      assert s + t == s + front + [c] && front + [c] == t;
      WithLastLaws(Split(s), front, [c]);
    }
  }

  lemma WithLastOfEmpty(pieces: seq<string>, t: string)
    ensures WithLast(pieces + [""], t) == pieces + [t]
  {
    assert "" + t == t;
  }

  lemma {:induction false} SplitJoin(tokens: seq<string>)
    requires tokens != [] && forall i :: 0 <= i < |tokens| ==> SpaceFree(tokens[i])
    ensures Split(Join(tokens)) == tokens
  {
    hide WithLast, SpaceFree;
    var n := |tokens| - 1;
    assert tokens == tokens[..n] + [tokens[n]];
    if n == 0 {
      SplitAppend("", tokens[0]);
      assert "" + tokens[0] == tokens[0];
      WithLastOfEmpty([], tokens[0]);
      assert [] + [""] == [""];
    } else {
      SplitJoin(tokens[..n]);
      SplitSpace(Join(tokens[..n]));
      SplitAppend(Join(tokens[..n]) + " ", tokens[n]);
      WithLastOfEmpty(tokens[..n], tokens[n]);
    }
  }

  // ---------------------------------------------------------------------
  // Collapsing
  // ---------------------------------------------------------------------

  ghost predicate NoDoubleSpace(s: string) {
    forall i :: 0 <= i < |s| - 1 ==> !(s[i] == ' ' && s[i + 1] == ' ')
  }

  lemma {:induction false} CollapseFixed(s: string)
    requires NoDoubleSpace(s)
    ensures Collapse(s) == s
  {
    if s != [] {
      assert NoDoubleSpace(s[1..]);
      CollapseFixed(s[1..]);
    }
  }

  lemma {:induction false} CollapseNormal(s: string)
    ensures NoDoubleSpace(Collapse(s))
    ensures s != [] ==> Collapse(s) != [] && Collapse(s)[0] == s[0]
  {
    if s != [] {
      CollapseNormal(s[1..]);
    }
  }

  lemma {:induction false} JoinNoDoubleSpace(tokens: seq<string>)
    requires tokens != []
    requires forall i :: 0 <= i < |tokens| ==> tokens[i] != "" && SpaceFree(tokens[i])
    ensures NoDoubleSpace(Join(tokens))
    ensures Join(tokens) != "" && Join(tokens)[|Join(tokens)| - 1] != ' '
  {
    var n := |tokens| - 1;
    if n > 0 {
      JoinNoDoubleSpace(tokens[..n]);
    }
  }

  /** Two spaces in a row count as one; with CollapseFixed this determines Collapse. */
  lemma {:induction false} CollapseMerges(a: string, b: string)
    ensures Collapse(a + "  " + b) == Collapse(a + " " + b)
  {
    if a == [] {
      assert (a + "  " + b)[1..] == a + " " + b;
    } else {
      CollapseMerges(a[1..], b);
      assert (a + "  " + b)[1..] == a[1..] + "  " + b && (a + " " + b)[1..] == a[1..] + " " + b;
      assert At(a + "  " + b, 1) == At(a + " " + b, 1);
    }
  }

  /** Joining the arguments with single spaces gives the line with runs of spaces collapsed. */
  lemma JoinOfTokens(line: string)
    ensures Join(Tokens(line)) == Collapse(line) && NoDoubleSpace(Join(Tokens(line)))
  {
    JoinSplit(Collapse(line));
    CollapseNormal(line);
  }

  /** Tokenizing the join of non-empty space-free words gives the words back. */
  lemma TokensOfJoin(tokens: seq<string>)
    requires tokens != []
    requires forall i :: 0 <= i < |tokens| ==> tokens[i] != "" && SpaceFree(tokens[i])
    ensures Tokens(Join(tokens)) == tokens
  {
    JoinNoDoubleSpace(tokens);
    CollapseFixed(Join(tokens));
    SplitJoin(tokens);
  }

  // ---------------------------------------------------------------------
  // The counting pass
  // ---------------------------------------------------------------------

  /** getArgumentLength. */
  method GetArgumentLength(command: string) returns (count: nat)
    requires CString(command)
    ensures count == 1 + Breaks(command)
    ensures command != "" && command[|command| - 1] == '\n' ==> count == |Tokens(command[..|command| - 1])|
  {
    count := 1;
    var i := 0;
    while i < |command|
      invariant 0 <= i <= |command|
      invariant count == 1 + Breaks(command) - Breaks(command[i..])
    {
      BreaksStep(command, i);
      if command[i] == ' ' && At(command, i + 1) != ' ' && At(command, i + 1) != '\0' {
        count := count + 1;
      }
      i := i + 1;
    }
    if command != "" && command[|command| - 1] == '\n' {
      var line := command[..|command| - 1];
      assert command == line + "\n";
      BreaksAreTokens(line);
    }
  }

  /** The spaces the counting pass counts. */
  function Breaks(s: string): nat {
    if s == [] then 0
    else (if s[0] == ' ' && At(s, 1) != ' ' && At(s, 1) != '\0' then 1 else 0) + Breaks(s[1..])
  }

  lemma BreaksStep(s: string, i: nat)
    requires i < |s|
    ensures Breaks(s[i..]) ==
      (if s[i] == ' ' && At(s, i + 1) != ' ' && At(s, i + 1) != '\0' then 1 else 0) + Breaks(s[i + 1..])
  {
    assert s[i..][1..] == s[i + 1..];
    assert At(s[i..], 1) == At(s, i + 1);
  }

  function Spaces(s: string): nat {
    if s == [] then 0 else Spaces(s[..|s| - 1]) + if s[|s| - 1] == ' ' then 1 else 0
  }

  lemma {:induction false} SplitLength(s: string)
    ensures |Split(s)| == 1 + Spaces(s)
  {
    if s != [] {
      SplitLength(s[..|s| - 1]);
    }
  }

  lemma {:induction false} SpacesCons(c: char, s: string)
    ensures Spaces([c] + s) == (if c == ' ' then 1 else 0) + Spaces(s)
  {
    if s == [] {
      assert [c] + s == [c];
    } else {
      assert ([c] + s)[..|s|] == [c] + s[..|s| - 1];
      SpacesCons(c, s[..|s| - 1]);
    }
  }

  /** Before the newline is stripped, the pass counts one space per run. */
  lemma BreaksAreTokens(line: string)
    requires CString(line + "\n")
    ensures 1 + Breaks(line + "\n") == |Tokens(line)|
  {
    BreaksAreSpaces(line);
    SplitLength(Collapse(line));
  }

  lemma {:induction false} BreaksAreSpaces(line: string)
    requires CString(line + "\n")
    ensures Breaks(line + "\n") == Spaces(Collapse(line))
  {
    var s := line + "\n";
    if line == [] {
      assert s == "\n" && s[1..] == "";
    } else {
      assert s[1..] == line[1..] + "\n";
      assert forall i :: 0 <= i < |s[1..]| ==> s[1..][i] == s[i + 1];
      BreaksAreSpaces(line[1..]);
      SpacesCons(line[0], Collapse(line[1..]));
      assert At(s, 1) == if |line| > 1 then line[1] else '\n';
    }
  }

  predicate EndsInSpace(s: string) {
    s != "" && s[|s| - 1] == ' '
  }

  /** A last line that ends without a newline: the count is the number of arguments exactly when
      the line does not end in a space. */
  lemma UnterminatedLineIff(line: string)
    requires CString(line)
    ensures 1 + Breaks(line) == |Tokens(line)| <==> !EndsInSpace(line)
  {
    UnterminatedBreaks(line);
    SplitLength(Collapse(line));
  }

  lemma {:induction false} UnterminatedBreaks(line: string)
    requires CString(line)
    ensures Breaks(line) + (if EndsInSpace(line) then 1 else 0) == Spaces(Collapse(line))
  {
    if line != [] {
      assert forall i :: 0 <= i < |line[1..]| ==> line[1..][i] == line[i + 1];
      UnterminatedBreaks(line[1..]);
      SpacesCons(line[0], Collapse(line[1..]));
    }
  }

  /** A line of the failing family: one argument is counted, two are stored. */
  lemma UnterminatedCounterexample()
    ensures 1 + Breaks("ls ") == 1 && Tokens("ls ") == ["ls", ""]
  {
    hide Split, Collapse, Breaks, Spaces;
    var line := "ls ";
    CollapseFixed(line);
    JoinSnoc(["ls"], "");
    assert ["ls"] + [""] == ["ls", ""] && Join(["ls"]) + " " + "" == line;
    SplitJoin(["ls", ""]);
    SplitLength(line);
    UnterminatedBreaks(line);
  }

  // ---------------------------------------------------------------------
  // The storing pass
  // ---------------------------------------------------------------------

  /** A slot of argVector: allocated but not written, a string, or the null terminator. */
  datatype Slot = Unset | Text(s: string) | Null

  /** Splitting a prefix never yields more pieces, and a complete first piece stays. */
  lemma {:induction false} SplitPrefix(a: string, b: string)
    ensures |Split(a)| <= |Split(a + b)|
    ensures |Split(a)| >= 2 ==> Split(a + b)[0] == Split(a)[0]
  {
    hide Split;
    if b == "" {
      assert a + b == a;
    } else {
      var front, c := b[..|b| - 1], b[|b| - 1];
      SplitPrefix(a, front);
      assert a + b == a + front + [c];
      if c == ' ' {
        SplitSpace(a + front);
        assert a + front + [c] == a + front + " ";
      } else {
        SplitChar(a + front, c);
      }
    }
  }

  lemma CollapseStep(s: string, i: nat)
    requires i < |s|
    ensures Collapse(s[i..]) ==
      (if s[i] == ' ' && At(s, i + 1) == ' ' then [] else [s[i]]) + Collapse(s[i + 1..])
  {
    assert s[i..][1..] == s[i + 1..];
  }

  /** The line asks for a daemon: its first word is daemonize, something follows, and the flag
      was clear. */
  predicate Daemonizes(line: string, wasDaemon: bool) {
    !wasDaemon && |Tokens(line)| >= 2 && Tokens(line)[0] == "daemonize"
  }

  function Arguments(line: string, wasDaemon: bool): (r: seq<string>)
    ensures |r| >= 1
  {
    if Daemonizes(line, wasDaemon) then Tokens(line)[1..] else Tokens(line)
  }

  /** A line of words is taken as it is, except that the word daemonize in front of others is dropped
      when the flag is clear. */
  lemma ArgumentsOfWords(tokens: seq<string>, wasDaemon: bool)
    requires tokens != []
    requires forall i :: 0 <= i < |tokens| ==> tokens[i] != "" && SpaceFree(tokens[i])
    ensures Arguments(Join(tokens), wasDaemon)
            == if !wasDaemon && |tokens| > 1 && tokens[0] == "daemonize" then tokens[1..] else tokens
  {
    TokensOfJoin(tokens);
  }

  /** Without a newline, every slot written is allocated exactly when the line does not end in a
      space, or is a daemon line, whose first word is not stored. */
  lemma SlotsFitIff(line: string, wasDaemon: bool)
    requires CString(line)
    ensures |Arguments(line, wasDaemon)| <= 1 + Breaks(line) <==> !EndsInSpace(line) || Daemonizes(line, wasDaemon)
  {
    UnterminatedBreaks(line);
    SplitLength(Collapse(line));
  }

  /** The arguments of the part e of the collapsed line that has been scanned. */
  function Shown(e: string, dropped: bool): seq<string> {
    if dropped then Split(e)[1..] else Split(e)
  }

  /** e is what the first i characters contribute to the collapsed line, and a first word
      daemonize has been dropped from it exactly if it asks for a daemon. */
  ghost predicate Scanned(buffer: string, i: nat, e: string, dropped: bool, wasDaemon: bool) {
    && i <= |buffer| && Collapse(buffer) == e + Collapse(buffer[i..])
    && (dropped <==> !wasDaemon && |Split(e)| >= 2 && Split(e)[0] == "daemonize")
  }

  lemma ScanStart(buffer: string, wasDaemon: bool)
    ensures Scanned(buffer, 0, "", false, wasDaemon) && Shown("", false) == [""]
  {
    assert buffer[0..] == buffer;
  }

  lemma ScanBound(buffer: string, i: nat, e: string, dropped: bool, wasDaemon: bool)
    requires Scanned(buffer, i, e, dropped, wasDaemon)
    ensures 1 <= |Shown(e, dropped)| <= |Arguments(buffer, wasDaemon)|
  {
    SplitPrefix(e, Collapse(buffer[i..]));
  }

  lemma ScanSkip(buffer: string, i: nat, e: string, dropped: bool, wasDaemon: bool)
    requires Scanned(buffer, i, e, dropped, wasDaemon) && i < |buffer|
    requires buffer[i] == ' ' && At(buffer, i + 1) == ' '
    ensures Scanned(buffer, i + 1, e, dropped, wasDaemon)
  {
    CollapseStep(buffer, i);
  }

  /** Scanning a space: the current argument is complete, and the word daemonize in front is
      dropped. */
  lemma ScanSpace(buffer: string, i: nat, e: string, dropped: bool, wasDaemon: bool)
    requires Scanned(buffer, i, e, dropped, wasDaemon) && i < |buffer|
    requires buffer[i] == ' ' && At(buffer, i + 1) != ' '
    ensures var shown := Shown(e, dropped);
      var drop := !dropped && !wasDaemon && |shown| == 1 && shown[0] == "daemonize";
      && Scanned(buffer, i + 1, e + " ", dropped || drop, wasDaemon)
      && Shown(e + " ", dropped || drop) == (if drop then [""] else shown + [""])
  {
    CollapseStep(buffer, i);
    SplitSpace(e);
    assert e + ([' '] + Collapse(buffer[i + 1..])) == e + " " + Collapse(buffer[i + 1..]);
  }

  lemma ScanChar(buffer: string, i: nat, e: string, dropped: bool, wasDaemon: bool)
    requires Scanned(buffer, i, e, dropped, wasDaemon) && i < |buffer| && buffer[i] != ' '
    ensures Scanned(buffer, i + 1, e + [buffer[i]], dropped, wasDaemon)
    ensures Shown(e, dropped) != [] && Shown(e + [buffer[i]], dropped) == WithLast(Shown(e, dropped), [buffer[i]])
  {
    var c := buffer[i];
    CollapseStep(buffer, i);
    SplitChar(e, c);
    assert e + ([c] + Collapse(buffer[i + 1..])) == e + [c] + Collapse(buffer[i + 1..]);
  }

  lemma ScanEnd(buffer: string, e: string, dropped: bool, wasDaemon: bool)
    requires Scanned(buffer, |buffer|, e, dropped, wasDaemon)
    ensures Shown(e, dropped) == Arguments(buffer, wasDaemon) && dropped == Daemonizes(buffer, wasDaemon)
  {
    assert e == Collapse(buffer);
  }

  /** initArgs: stores the arguments, terminates them with a null pointer, and returns the index
      of the last one. */
  method InitArgs(buffer: string, argVector: array<Slot>, wasDaemon: bool) returns (count: int, isDaemon: bool)
    requires CString(buffer) && |Arguments(buffer, wasDaemon)| < argVector.Length
    modifies argVector
    ensures var args := Arguments(buffer, wasDaemon);
      && count == |args| - 1 && |args| < argVector.Length
      && (forall k :: 0 <= k < |args| ==> argVector[k] == Text(args[k])) && argVector[|args|] == Null
    ensures isDaemon == (wasDaemon || Daemonizes(buffer, wasDaemon))
  {
    hide Scanned, Shown, Tokens, Arguments, Daemonizes, Collapse, Split;
    count, isDaemon := 0, wasDaemon;
    var current := "";
    ghost var e, dropped, shown := "", false, [""];
    ScanStart(buffer, wasDaemon);
    var i := 0;
    while i < |buffer|
      invariant 0 <= i <= |buffer| && Scanned(buffer, i, e, dropped, wasDaemon)
      invariant isDaemon == (wasDaemon || dropped)
      invariant shown == Shown(e, dropped) && count == |shown| - 1 && count >= 0 && current == shown[count]
      invariant count < argVector.Length
      invariant forall k :: 0 <= k < count ==> argVector[k] == Text(shown[k])
    {
      ScanBound(buffer, i, e, dropped, wasDaemon);
      if buffer[i] == ' ' && At(buffer, i + 1) == ' ' {
        ScanSkip(buffer, i, e, dropped, wasDaemon);
      } else if buffer[i] == ' ' {
        ScanSpace(buffer, i, e, dropped, wasDaemon);
        argVector[count] := Text(current);
        if count == 0 && !isDaemon && current == "daemonize" {
          count := -1;
          isDaemon, dropped := true, true;
        }
        e, shown := e + " ", Shown(e + " ", dropped);
        count := count + 1;
        current := "";
        ScanBound(buffer, i + 1, e, dropped, wasDaemon);
      } else {
        ScanChar(buffer, i, e, dropped, wasDaemon);
        current := current + [buffer[i]];
        argVector[count] := Text(current);
        e, shown := e + [buffer[i]], Shown(e + [buffer[i]], dropped);
      }
      i := i + 1;
    }
    ScanBound(buffer, i, e, dropped, wasDaemon);
    ScanEnd(buffer, e, dropped, wasDaemon);
    argVector[count] := Text(current);
    argVector[count + 1] := Null;
  }

  /** One turn of the shell up to initArgs: count, allocate, strip the newline, store.  The last
      line of the input may lack its newline.  Where the code would write outside the vector the
      model stops, with `fits` clear; SlotsFitIff says for which lines that is.  Otherwise the two
      passes agree, and every slot written lies within the allocation. */
  method ParseLine(line: string, newline: bool, wasDaemon: bool)
    returns (argVector: array<Slot>, argLength: nat, count: int, isDaemon: bool, fits: bool)
    requires CString(line) && '\n' !in line
    ensures fits <==> newline || !EndsInSpace(line) || Daemonizes(line, wasDaemon)
    ensures argVector.Length == argLength + 1 && fresh(argVector)
    ensures fits ==>
      && argLength == count + (if Daemonizes(line, wasDaemon) && (newline || !EndsInSpace(line)) then 2 else 1)
      && count == |Arguments(line, wasDaemon)| - 1 && argVector[count + 1] == Null
      && (forall k :: 0 <= k <= count ==> argVector[k] == Text(Arguments(line, wasDaemon)[k]))
      && isDaemon == (wasDaemon || Daemonizes(line, wasDaemon))
    ensures !fits ==> |Arguments(line, wasDaemon)| == argLength + 1
  {
    hide Split, Collapse, Breaks, Spaces;
    var buffer := if newline then line + "\n" else line;
    argLength := GetArgumentLength(buffer);
    if !newline {
      UnterminatedBreaks(line);
      SplitLength(Collapse(line));
    }
    argVector := new Slot[argLength + 1](_ => Unset);
    if newline {
      buffer := buffer[..|buffer| - 1];
    }
    assert buffer == line;
    count, isDaemon, fits := 0, wasDaemon, |Arguments(line, wasDaemon)| <= argLength;
    if fits {
      count, isDaemon := InitArgs(buffer, argVector, wasDaemon);
    }
  }

  /** The join loop of shellShm over a null-terminated argument vector. */
  method JoinArguments(outputs: seq<string>) returns (command: string)
    ensures command == Join(outputs)
  {
    command := "";
    for j := 0 to |outputs|
      invariant command == Join(outputs[..j])
    {
      assert outputs[..j + 1] == outputs[..j] + [outputs[j]];
      if j == 0 {
        command := outputs[j];
      } else {
        JoinSnoc(outputs[..j], outputs[j]);
        command := command + " ";
        command := command + outputs[j];
      }
    }
    assert outputs[..|outputs|] == outputs;
  }
}
