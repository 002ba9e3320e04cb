/** Text files of one-line blocks, each written as newline, line, newline. Blocks are appended
    one at a time and removed by replacing every occurrence of their text; both writes can fail
    half-way. */
module BlockFile {
  import opened Text

  function Block(line: string): string {
    "\n" + line + "\n"
  }

  function Render(lines: seq<string>): string {
    if lines == [] then "" else Block(lines[0]) + Render(lines[1..])
  }

  predicate LineOk(line: string) {
    line != "" && '\n' !in line
  }

  lemma BlockParts(line: string, rest: string)
    ensures Block(line) + rest == "\n" + (line + "\n" + rest)
    ensures (Block(line) + rest)[1..] == line + "\n" + rest
    ensures |Block(line)| == |line| + 2 && (Block(line) + rest)[0] == '\n'
  {
  }

  /** The items other than `item`, in order. */
  function Without<T(==,!new)>(items: seq<T>, item: T): (r: seq<T>)
    ensures item !in r
    ensures forall i :: i in r <==> i in items && i != item
    ensures item !in items ==> r == items
  {
    if items == [] then []
    else if items[0] == item then Without(items[1..], item)
    else [items[0]] + Without(items[1..], item)
  }

  lemma WithoutCons<T(!new)>(first: T, rest: seq<T>, item: T)
    ensures Without([first] + rest, item) ==
              if first == item then Without(rest, item) else [first] + Without(rest, item)
  {
    assert ([first] + rest)[1..] == rest;
  }

  lemma {:induction false} RenderAppend(lines: seq<string>, more: seq<string>)
    ensures Render(lines + more) == Render(lines) + Render(more)
  {
    if lines == [] {
      assert lines + more == more;
    } else {
      assert (lines + more)[1..] == lines[1..] + more;
      RenderAppend(lines[1..], more);
    }
  }

  /** The rest of a file is empty or starts with a newline, so no block begins at the newline that
      ends a line: an occurrence never straddles two blocks. */
  lemma {:induction false} RemoveAllSkips(rest: string, after: string, line: string)
    requires LineOk(line) && '\n' !in rest && (after == "" || after[0] == '\n')
    ensures RemoveAll(rest + "\n" + after, Block(line)) == rest + "\n" + RemoveAll(after, Block(line))
  {
    var s, block := rest + "\n" + after, Block(line);
    if rest == "" {
      assert s[0] == '\n' && s[1..] == after;
      assert block[1] == line[0] && line[0] in line;
      if |s| >= |block| {
        assert s[1] == '\n';
        assert !(block <= s);
      } else {
        assert RemoveAll(after, block) == after;
      }
    } else {
      assert s[0] == rest[0] && rest[0] in rest && s[1..] == rest[1..] + "\n" + after;
      RemoveAllSkips(rest[1..], after, line);
      if |s| < |block| {
        assert RemoveAll(s[1..], block) == s[1..];
      }
    }
  }

  /** Two blocks of which one is a prefix of a file that starts with the other are the same. */
  lemma BlockPrefix(line: string, first: string, rest: string)
    requires LineOk(line) && LineOk(first)
    ensures Block(line) <= Block(first) + rest <==> line == first
  {
    var s, block := Block(first) + rest, Block(line);
    if block <= s {
      IndexOfConcat(line, '\n', "");
      IndexOfConcat(first, '\n', rest);
      IndexOfPrefix(line + "\n", first + "\n" + rest);
      assert block[1..] == line + "\n" && s[1..] == first + "\n" + rest;
      assert line == block[1..1 + |line|] == s[1..1 + |line|] == first;
    }
  }

  /** The first newline of a text is the first newline of every prefix that has one. */
  lemma {:induction false} IndexOfPrefix(p: string, s: string)
    ensures p <= s && IndexOf(p, '\n') < |p| ==> IndexOf(s, '\n') == IndexOf(p, '\n')
  {
    if p != "" && p <= s && p[0] != '\n' {
      IndexOfPrefix(p[1..], s[1..]);
    }
  }

  /** A file that is a prefix of another one holds a prefix of its lines. */
  lemma {:induction false} RenderPrefix(a: seq<string>, b: seq<string>)
    requires (forall l :: l in a ==> LineOk(l)) && (forall l :: l in b ==> LineOk(l))
    requires Render(a) <= Render(b)
    ensures a <= b
  {
    if a != [] {
      BlockPrefix(a[0], b[0], Render(b[1..]));
      assert Render(a)[|Block(a[0])|..] == Render(a[1..]) && Render(b)[|Block(b[0])|..] == Render(b[1..]);
      RenderPrefix(a[1..], b[1..]);
      assert a == [a[0]] + a[1..] && b == [b[0]] + b[1..];
    }
  }

  /** Printing is injective: the file determines the lines. */
  lemma RenderInjective(a: seq<string>, b: seq<string>)
    requires (forall l :: l in a ==> LineOk(l)) && (forall l :: l in b ==> LineOk(l))
    requires Render(a) == Render(b)
    ensures a == b
  {
    RenderPrefix(a, b);
    RenderPrefix(b, a);
  }

  lemma RemoveAllStep(s: string, what: string)
    requires s != "" && what != "" && !(what <= s)
    ensures RemoveAll(s, what) == [s[0]] + RemoveAll(s[1..], what)
  {
    if |s| < |what| {
      assert RemoveAll(s[1..], what) == s[1..];
    }
  }

  /** What can follow the last whole block: nothing, or the start of a block. */
  predicate Tail(t: string) {
    t == "" || (t[0] == '\n' && '\n' !in t[1..])
  }

  lemma AfterBlock(lines: seq<string>, tail: string)
    requires Tail(tail)
    ensures Render(lines) + tail == "" || (Render(lines) + tail)[0] == '\n'
  {
    if lines != [] {
      assert Block(lines[0])[0] == '\n';
    }
  }

  lemma RemoveOther(first: string, after: string, line: string)
    requires LineOk(line) && LineOk(first) && first != line && (after == "" || after[0] == '\n')
    ensures RemoveAll(Block(first) + after, Block(line)) == Block(first) + RemoveAll(after, Block(line))
  {
    var s, block := Block(first) + after, Block(line);
    BlockPrefix(line, first, after);
    RemoveAllStep(s, block);
    BlockParts(first, after);
    RemoveAllSkips(first, after, line);
    BlockParts(first, RemoveAll(after, block));
  }

  lemma RemoveSame(line: string, after: string)
    ensures RemoveAll(Block(line) + after, Block(line)) == RemoveAll(after, Block(line))
  {
    assert (Block(line) + after)[|Block(line)|..] == after;
  }

  /** A text without a newline holds no block. */
  lemma {:induction false} NoBlockInLine(t: string, line: string)
    requires '\n' !in t
    ensures RemoveAll(t, Block(line)) == t
  {
    if |t| >= |Block(line)| {
      assert t[0] in t && Block(line)[0] == '\n';
      NoBlockInLine(t[1..], line);
    }
  }

  lemma NoBlockInTail(t: string, line: string)
    requires Tail(t)
    ensures RemoveAll(t, Block(line)) == t
  {
    if |t| >= |Block(line)| {
      assert Block(line)[|line| + 1] == '\n' && t[|line| + 1] == t[1..][|line|] && t[1..][|line|] in t[1..];
      NoBlockInLine(t[1..], line);
    }
  }

  /** Replace-all of one block removes exactly the lines equal to its line. */
  lemma {:induction false} RemoveBlock(lines: seq<string>, line: string, tail: string)
    requires LineOk(line) && Tail(tail) && forall l :: l in lines ==> LineOk(l)
    ensures RemoveAll(Render(lines) + tail, Block(line)) == Render(Without(lines, line)) + tail
  {
    if lines == [] {
      NoBlockInTail(tail, line);
      assert "" + tail == tail;
    } else {
      var after := Render(lines[1..]) + tail;
      RemoveBlock(lines[1..], line, tail);
      AfterBlock(lines[1..], tail);
      assert Render(lines) + tail == Block(lines[0]) + after;
      if lines[0] == line {
        RemoveSame(line, after);
      } else {
        RemoveOther(lines[0], after, line);
        RenderOne(lines[0], Without(lines[1..], line), tail);
      }
    }
  }

  lemma RenderOne(first: string, rest: seq<string>, tail: string)
    ensures Block(first) + (Render(rest) + tail) == Render([first] + rest) + tail
  {
    assert ([first] + rest)[1..] == rest;
    assert Block(first) + (Render(rest) + tail) == Block(first) + Render(rest) + tail;
  }

  lemma RemoveWholeBlock(lines: seq<string>, line: string)
    requires LineOk(line) && forall l :: l in lines ==> LineOk(l)
    ensures RemoveAll(Render(lines), Block(line)) == Render(Without(lines, line))
  {
    RemoveBlock(lines, line, "");
    assert Render(lines) + "" == Render(lines) && Render(Without(lines, line)) + "" == Render(Without(lines, line));
  }

  /** Appending a new block and removing it again gives the file back. */
  lemma AppendThenRemove(lines: seq<string>, line: string)
    requires LineOk(line) && line !in lines && forall l :: l in lines ==> LineOk(l)
    ensures Render(lines) + Block(line) == Render(lines + [line])
    ensures RemoveAll(Render(lines) + Block(line), Block(line)) == Render(lines)
  {
    RenderAppend(lines, [line]);
    assert Render([line]) == Block(line) + Render([]);
    assert Render(lines + [line]) == Render(lines) + Block(line);
    RemoveWholeBlock(lines + [line], line);
    WithoutLast(lines, line);
  }

  lemma {:induction false} WithoutLast<T(!new)>(lines: seq<T>, line: T)
    requires line !in lines
    ensures Without(lines + [line], line) == lines
  {
    if lines != [] {
      assert (lines + [line])[1..] == lines[1..] + [line];
      WithoutLast(lines[1..], line);
    }
  }

  // ---- writes that can fail ----

  /** addToFile: the block, or an error after a part of it. */
  datatype Append = Appended | AppendFailed(part: nat)

  /** removeFromFile: the new text; or an error before the file is touched; or an error after it
      has been truncated and a part of the new text written. */
  datatype Rewrite = Rewritten | Untouched | Truncated(part: nat)

  function FirstPart(s: string, n: nat): string {
    if n < |s| then s[..n] else s
  }

  function AfterAppend(file: string, block: string, a: Append): string {
    file + if a.Appended? then block else FirstPart(block, a.part)
  }

  function AfterRewrite(file: string, block: string, w: Rewrite): string {
    match w
    case Rewritten => RemoveAll(file, block)
    case Untouched => file
    case Truncated(n) => FirstPart(RemoveAll(file, block), n)
  }

  /** A failed addition to `file` leaves no trace: nothing was written, or all of the old text was
      written back. */
  predicate LeavesNoTrace(file: string, append: Append, rewrite: Rewrite) {
    if append.AppendFailed? then append.part == 0
    else rewrite.Rewritten? || (rewrite.Truncated? && rewrite.part >= |file|)
  }

  /** The start of a block is never a rendered file. */
  lemma TailIsNoFile(tail: string, lines: seq<string>)
    requires Tail(tail) && tail != "" && forall l :: l in lines ==> LineOk(l)
    ensures tail != Render(lines)
  {
    if lines != [] {
      var rest := Render(lines)[1..];
      BlockParts(lines[0], Render(lines[1..]));
      assert rest == lines[0] + "\n" + Render(lines[1..]);
      assert rest[|lines[0]|] == '\n' && '\n' in rest;
    }
  }

  /** A file with the start of a block at its end is not a rendered file. */
  lemma RenderWithTail(lines: seq<string>, tail: string, other: seq<string>)
    requires (forall l :: l in lines ==> LineOk(l)) && (forall l :: l in other ==> LineOk(l)) && Tail(tail)
    requires Render(lines) + tail == Render(other)
    ensures tail == "" && lines == other
  {
    assert Render(lines) <= Render(other);
    RenderPrefix(lines, other);
    var more := other[|lines|..];
    assert other == lines + more;
    RenderAppend(lines, more);
    assert tail == (Render(lines) + tail)[|Render(lines)|..] == Render(more);
    if tail != "" {
      TailIsNoFile(tail, more);
    }
    assert more == [];
  }

  lemma PartIsTail(line: string, n: nat)
    requires LineOk(line) && n < |Block(line)|
    ensures Tail(Block(line)[..n])
  {
    if n > 0 {
      assert Block(line)[..n][1..] == line[..n - 1];
    }
  }

  lemma CutInBlock(line: string, after: string, n: nat)
    requires LineOk(line) && n < |Block(line)|
    ensures Tail(FirstPart(Block(line) + after, n))
  {
    PartIsTail(line, n);
    assert (Block(line) + after)[..n] == Block(line)[..n];
  }

  lemma CutAfterBlock(block: string, after: string, n: nat)
    requires n >= |block|
    ensures FirstPart(block + after, n) == block + FirstPart(after, n - |block|)
  {
  }

  /** A truncated file holds some of the first blocks and the start of the next. */
  lemma {:induction false} CutFile(lines: seq<string>, tail: string, n: nat) returns (m: nat, cut: string)
    requires Tail(tail) && forall l :: l in lines ==> LineOk(l)
    ensures m <= |lines| && Tail(cut) && FirstPart(Render(lines) + tail, n) == Render(lines[..m]) + cut
  {
    if lines == [] {
      m, cut := 0, FirstPart(tail, n);
      assert "" + tail == tail && "" + cut == cut;
    } else {
      var block, after := Block(lines[0]), Render(lines[1..]) + tail;
      assert Render(lines) + tail == block + after;
      if n < |block| {
        CutInBlock(lines[0], after, n);
        m, cut := 0, FirstPart(block + after, n);
        assert "" + cut == cut;
      } else {
        var k;
        k, cut := CutFile(lines[1..], tail, n - |block|);
        m := k + 1;
        CutAfterBlock(block, after, n);
        RenderOne(lines[0], lines[1..][..k], cut);
        assert lines[..m] == [lines[0]] + lines[1..][..k];
      }
    }
  }
}
