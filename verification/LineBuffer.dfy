/** The growing line buffer of the shell's read loop (MyShell/shell.c). */
module LineBuffer {

  /** The text through the first newline, or all of it. */
  function FirstLine(s: string): (r: string)
    ensures r <= s
    ensures r == s || (r != "" && r[|r| - 1] == '\n')
    ensures forall i :: 0 <= i < |r| - 1 ==> r[i] != '\n'
  {
    if s == "" then ""
    else if s[0] == '\n' then "\n"
    else [s[0]] + FirstLine(s[1..])
  }

  /** A prefix that ends at its first newline, or that is everything and has none before its
      last character, is the first line. */
  lemma {:induction false} FirstLineIs(s: string, n: nat)
    requires n <= |s| && forall i :: 0 <= i < n - 1 ==> s[i] != '\n'
    requires n == |s| || (n > 0 && s[n - 1] == '\n')
    ensures FirstLine(s) == s[..n]
  {
    if s != "" && s[0] != '\n' {
      FirstLineIs(s[1..], n - 1);
      assert s[..n] == [s[0]] + s[1..][..n - 1];
    }
  }

  /** n characters without a newline mean the line is at least that long. */
  lemma {:induction false} LineContinues(s: string, n: nat)
    requires n < |s| && forall i :: 0 <= i < n ==> s[i] != '\n'
    ensures |FirstLine(s)| > n
  {
    if n > 0 {
      LineContinues(s[1..], n - 1);
    }
  }

  class Input {
    const data: string
    var pos: nat

    ghost predicate Valid()
      reads this
    {
      pos <= |data|
    }

    constructor (data: string)
      ensures Valid() && this.data == data && pos == 0
    {
      this.data := data;
      pos := 0;
    }

    /** fgetc. */
    method Fgetc() returns (eof: bool, c: char)
      requires Valid()
      modifies this
      ensures Valid() && (eof <==> old(pos) == |data|)
      ensures !eof ==> c == data[old(pos)] && pos == old(pos) + 1
      ensures eof ==> pos == old(pos)
    {
      eof, c := pos == |data|, ' ';
      if !eof {
        c := data[pos];
        pos := pos + 1;
      }
    }
  }

  /** realloc: a block of the new size with the old contents as far as they fit, or NULL when
      more than `memory` is asked for. */
  method Realloc(block: array<char>, size: nat, memory: nat) returns (r: array?<char>)
    ensures r == null <==> size > memory
    ensures r != null ==> fresh(r) && r.Length == size
    ensures r != null ==> forall j :: 0 <= j < size && j < block.Length ==> r[j] == block[j]
  {
    if size > memory {
      return null;
    }
    r := new char[size](_ => ' ');
    var n := if size < block.Length then size else block.Length;
    for j := 0 to n
      invariant forall i :: 0 <= i < j ==> r[i] == block[i]
    {
      r[j] := block[j];
    }
  }

  function Max(a: int, b: int): int {
    if a >= b then a else b
  }

  /** The countdown of lineget before the n-th character is stored: when the room is used up the
      tracked capacity is doubled, and the n characters written so far have to be preserved. */
  method MakeRoom(linep: array<char>, n: nat, len: nat, lenmax: nat, memory: nat)
    returns (r: array?<char>, len': nat, lenmax': nat, ghost copied: nat)
    requires n + len == lenmax <= linep.Length && len >= 1
    ensures r == null ==> len == 1 && 2 * lenmax > memory
    ensures len > 1 ==> r == linep && lenmax' == lenmax && copied == 0
    ensures len == 1 && r != null ==> fresh(r) && lenmax' == 2 * lenmax <= memory && copied == n
    ensures r != null ==> n + 1 + len' == lenmax' <= r.Length && len' >= 1
    ensures r != null ==> forall j :: 0 <= j < n ==> r[j] == linep[j]
  {
    r, len', lenmax', copied := linep, len - 1, lenmax, 0;
    if len' == 0 {
      len' := lenmax;
      lenmax' := lenmax * 2;
      copied := n;
      r := Realloc(linep, lenmax', memory);
    }
  }

  /** Characters preserved by the reallocations that lead to a capacity: all but one of each
      capacity that was outgrown. */
  function Preserved(capacity: nat): nat {
    if capacity <= 300 then 0 else Preserved(capacity / 2) + capacity / 2 - 1
  }

  lemma PreservedDouble(capacity: nat)
    requires capacity >= 300
    ensures Preserved(2 * capacity) == Preserved(capacity) + capacity - 1
  {
  }

  /** What is known of the loop of lineget after n characters of `rest`. */
  ghost predicate Progressing(rest: string, n: nat, len: nat, lenmax: nat, copied: nat, memory: nat) {
    && n <= |rest| && (forall j :: 0 <= j < n - 1 ==> rest[j] != '\n')
    && n + len == lenmax && len >= 1
    && 300 <= lenmax <= Max(300, 2 * n) && copied == Preserved(lenmax) <= lenmax - 300
    && (lenmax == 300 || lenmax <= memory)
  }

  lemma ProgressFacts(rest: string, n: nat, len: nat, lenmax: nat, copied: nat, memory: nat)
    requires Progressing(rest, n, len, lenmax, copied, memory)
    ensures n <= |rest| && (forall j :: 0 <= j < n - 1 ==> rest[j] != '\n')
    ensures n + len == lenmax && len >= 1 && 300 <= lenmax <= Max(300, 2 * n)
    ensures copied == Preserved(lenmax) <= lenmax - 300 && (lenmax == 300 || lenmax <= memory)
  {
    hide Preserved;
  }

  /** One more character, after the room for it has been made. */
  lemma ProgressStep(rest: string, n: nat, len: nat, lenmax: nat, copied: nat, memory: nat,
                     len': nat, lenmax': nat, copied': nat)
    requires Progressing(rest, n, len, lenmax, copied, memory) && n < |rest| && (n > 0 ==> rest[n - 1] != '\n')
    requires n + 1 + len' == lenmax' && len' >= 1
    requires if len > 1 then lenmax' == lenmax && copied' == copied
             else lenmax' == 2 * lenmax <= memory && copied' == copied + n
    ensures Progressing(rest, n + 1, len', lenmax', copied', memory)
  {
    hide Preserved;
    PreservedDouble(lenmax);
  }

  lemma ProgressStart(rest: string, memory: nat)
    ensures Progressing(rest, 0, 300, 300, 0, memory)
  {
  }

  /** lineget.  An earlier buffer of at least 300 bytes may be passed in for reuse.  Returns the
      buffer, the number of characters before its terminator, the capacity the code tracks, and
      how many written characters its reallocations had to preserve in total. */
  method LineGet(buffer: array?<char>, input: Input, memory: nat)
    returns (linep: array?<char>, n: nat, lenmax: nat, ghost copied: nat)
    requires input.Valid() && (buffer != null ==> buffer.Length >= 300)
    modifies input, if buffer == null then {} else {buffer}
    ensures input.Valid() && (linep == null || linep == buffer || fresh(linep))
    ensures linep == null ==> memory < Max(300, 2 * |FirstLine(input.data[old(input.pos)..])|)
    ensures linep != null ==>
      && n < lenmax <= linep.Length
      && linep[..n] == FirstLine(input.data[old(input.pos)..]) && linep[n] == '\0'
      && input.pos == old(input.pos) + n
      && 300 <= lenmax <= Max(300, 2 * n)
      && copied == Preserved(lenmax) && (n > 0 ==> copied < 2 * n) && (n == 0 ==> copied == 0)
      && (lenmax == 300 || lenmax <= memory)
  {
    hide FirstLine, Preserved, Progressing;
    ghost var rest := input.data[input.pos..];
    lenmax, n, copied := 300, 0, 0;
    linep := buffer;
    if linep == null {
      if memory < 300 {
        return;
      }
      linep := new char[300](_ => ' ');
    }
    var len := lenmax;
    ProgressStart(rest, memory);
    var c := ' ';
    var eof := false;
    while !eof && c != '\n'
      invariant linep != null && (fresh(linep) || linep == buffer)
      invariant input.Valid() && input.pos == old(input.pos) + n && n <= |rest| && n + len == lenmax && len >= 1
      invariant Progressing(rest, n, len, lenmax, copied, memory) && lenmax <= linep.Length
      invariant forall j :: 0 <= j < n ==> linep[j] == rest[j]
      invariant n > 0 && rest[n - 1] == '\n' ==> c == '\n'
      invariant c == '\n' ==> n > 0 && rest[n - 1] == '\n'
      invariant eof ==> n == |rest|
      decreases |rest| - n, !eof
    {
      var next;
      eof, next := input.Fgetc();
      if !eof {
        ProgressFacts(rest, n, len, lenmax, copied, memory);
        LineContinues(rest, n);
        ghost var more;
        ghost var was, cap, kept := len, lenmax, copied;
        linep, len, lenmax, more := MakeRoom(linep, n, len, lenmax, memory);
        copied := copied + more;
        if linep == null {
          return;
        }
        ProgressStep(rest, n, was, cap, kept, memory, len, lenmax, copied);
        c := next;
        linep[n] := c;
        n := n + 1;
      }
    }
    ProgressFacts(rest, n, len, lenmax, copied, memory);
    FirstLineIs(rest, n);
    linep[n] := '\0';
  }
}
