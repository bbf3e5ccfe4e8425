/** The string buffer of lauxlib.c: characters gather in a fixed array, full arrays become strings on
    the Lua stack, and strings are merged so that few stay there. */
module LuaBuffer {

  /** LUA_MINSTACK/2. */
  const LIMIT := 10

  function Concat(pieces: seq<string>): string {
    if pieces == [] then "" else Concat(pieces[..|pieces| - 1]) + pieces[|pieces| - 1]
  }

  lemma {:induction false} ConcatParts(a: seq<string>, b: seq<string>)
    ensures Concat(a + b) == Concat(a) + Concat(b)
    decreases |b|
  {
    if b == [] {
      assert a + b == a;
    } else {
      var n := |b| - 1;
      ConcatParts(a, b[..n]);
      assert (a + b)[..|a + b| - 1] == a + b[..n];
      assert Concat(a) + (Concat(b[..n]) + b[n]) == (Concat(a) + Concat(b[..n])) + b[n];
    }
  }

  lemma ConcatOne(s: string)
    ensures Concat([s]) == s
  {
    assert [s][..0] == [];
  }

  /** Merging the last pieces leaves the whole as it was. */
  lemma ConcatMerged(pieces: seq<string>, toget: nat)
    requires toget <= |pieces|
    ensures var n := |pieces| - toget; Concat(pieces[..n] + [Concat(pieces[n..])]) == Concat(pieces)
  {
    var n := |pieces| - toget;
    ConcatParts(pieces[..n], pieces[n..]);
    ConcatParts(pieces[..n], [Concat(pieces[n..])]);
    ConcatOne(Concat(pieces[n..]));
    assert pieces == pieces[..n] + pieces[n..];
  }

  lemma ConcatFirst(x: string, rest: seq<string>)
    ensures |Concat([x] + rest)| == |x| + |Concat(rest)|
  {
    ConcatParts([x], rest);
    ConcatOne(x);
  }

  /** Of lvl pieces on top of s, with the last t joined: one more has to join them. */
  predicate MustJoin(s: seq<string>, lvl: nat, t: nat)
    requires 1 <= t < lvl <= |s|
  {
    lvl - t + 1 >= LIMIT || |Concat(s[|s| - t..])| > |s[|s| - t - 1]|
  }

  /** luaL_Buffer, with the strings of the Lua stack; `size` is LUAL_BUFFERSIZE. */
  class Buffer {
    const size: nat
    var stack: seq<string>
    var buffer: string
    var lvl: nat
    ghost var below: seq<string>

    /** The stack is what was there before, and lvl pieces. */
    ghost predicate Holds()
      reads this
    {
      |stack| == |below| + lvl && stack[..|below|] == below && |buffer| <= size && size > 0
    }

    /** Between operations. */
    ghost predicate Valid()
      reads this
    {
      Holds() && lvl < LIMIT
    }

    /** Everything added so far, in order. */
    ghost function Contents(): string
      requires Holds()
      reads this
    {
      Concat(stack[|below|..]) + buffer
    }

    /** luaL_buffinit. */
    constructor (size: nat, stack: seq<string>)
      requires size > 0
      ensures Valid() && Contents() == "" && below == this.stack == stack
    {
      this.size := size;
      this.stack, this.below := stack, stack;
      buffer, lvl := "", 0;
    }

    method EmptyBuffer() returns (pushed: bool)
      requires Holds()
      modifies this
      ensures Holds() && Contents() == old(Contents()) && below == old(below) && buffer == ""
      ensures pushed == (old(buffer) != "") && lvl == old(lvl) + (if pushed then 1 else 0)
      ensures stack == old(stack) + (if pushed then [old(buffer)] else [])
    {
      if |buffer| == 0 { return false; }
      ghost var pieces := stack[|below|..];
      stack := stack + [buffer];
      ConcatParts(pieces, [buffer]);
      ConcatOne(buffer);
      assert stack[|below|..] == pieces + [buffer];
      assert Concat(pieces) + buffer + "" == Concat(pieces) + buffer;
      buffer := "";
      lvl := lvl + 1;
      return true;
    }

    /** Joins the last pieces while there are too many, or they are longer together than the one below:
        those and no others. */
    method AdjustStack() returns (ghost toget: nat)
      requires Holds()
      modifies `stack, `lvl
      ensures Valid() && Contents() == old(Contents())
      ensures old(lvl) > 1 ==>
                var s, l := old(stack), old(lvl);
                && 1 <= toget <= l && stack == s[..|s| - toget] + [Concat(s[|s| - toget..])] && lvl == l - toget + 1
                && (forall t | 1 <= t < toget :: MustJoin(s, l, t)) && (toget < l ==> !MustJoin(s, l, toget))
      ensures old(lvl) <= 1 ==> stack == old(stack) && lvl == old(lvl)
    {
      hide Concat;
      toget := 0;
      if lvl > 1 {
        var n := |stack|;
        var joined := 1;
        var toplen := |stack[n - 1]|;
        assert stack[n - 1..] == [stack[n - 1]];
        ConcatOne(stack[n - 1]);
        while joined < lvl && (lvl - joined + 1 >= LIMIT || toplen > |stack[n - (joined + 1)]|)
          invariant 1 <= joined <= lvl && toplen == |Concat(stack[n - joined..])|
          invariant forall t | 1 <= t < joined :: MustJoin(stack, lvl, t)
          decreases lvl - joined
          modifies {}
        {
          assert MustJoin(stack, lvl, joined);
          ConcatFirst(stack[n - (joined + 1)], stack[n - joined..]);
          assert stack[n - (joined + 1)..] == [stack[n - (joined + 1)]] + stack[n - joined..];
          toplen := toplen + |stack[n - (joined + 1)]|;
          joined := joined + 1;
        }
        toget := joined;
        Merge(joined);
      }
    }

    /** lua_concat of the last pieces. */
    method Merge(toget: nat)
      requires Holds() && 1 <= toget <= lvl
      modifies `stack, `lvl
      ensures Holds() && Contents() == old(Contents()) && lvl == old(lvl) - toget + 1
      ensures var n := |old(stack)| - toget; stack == old(stack)[..n] + [Concat(old(stack)[n..])]
    {
      ghost var pieces := stack[|below|..];
      var n := |stack| - toget;
      ConcatMerged(pieces, toget);
      assert pieces[|pieces| - toget..] == stack[n..];
      stack := stack[..n] + [Concat(stack[n..])];
      assert stack[|below|..] == pieces[..|pieces| - toget] + [Concat(pieces[|pieces| - toget..])];
      lvl := lvl - toget + 1;
    }

    method PrepBuffer()
      requires Valid()
      modifies this
      ensures Valid() && Contents() == old(Contents()) && below == old(below) && buffer == ""
    {
      var pushed := EmptyBuffer();
      if pushed { var _ := AdjustStack(); }
    }

    /** luaL_addchar. */
    method AddChar(c: char)
      requires Valid()
      modifies this
      ensures Valid() && Contents() == old(Contents()) + [c] && below == old(below)
    {
      if !(|buffer| < size) { PrepBuffer(); }
      buffer := buffer + [c];
    }

    /** Characters written by the caller into the free part of the buffer, and luaL_addsize. */
    method AddSize(s: string)
      requires Valid() && |s| <= size - |buffer|
      modifies `buffer
      ensures Valid() && Contents() == old(Contents()) + s
    {
      ghost var whole := Concat(stack[|below|..]);
      assert whole + (buffer + s) == (whole + buffer) + s;
      buffer := buffer + s;
    }

    method AddLString(s: string)
      requires Valid()
      modifies this
      ensures Valid() && Contents() == old(Contents()) + s && below == old(below)
    {
      var l := 0;
      assert old(Contents()) + s[..0] == old(Contents());
      while l < |s|
        invariant 0 <= l <= |s| && Valid() && Contents() == old(Contents()) + s[..l] && below == old(below)
      {
        AddChar(s[l]);
        assert old(Contents()) + s[..l] + [s[l]] == old(Contents()) + s[..l + 1];
        l := l + 1;
      }
      assert s[..l] == s;
    }

    /** luaL_addvalue: the string on the top of the stack, above the pieces, joins them; what is in the
        buffer goes below it. */
    method AddValue(ghost value: string)
      requires stack != [] && stack[|stack| - 1] == value
      requires |stack| - 1 == |below| + lvl && stack[..|below|] == below && |buffer| <= size && size > 0 && lvl < LIMIT
      modifies this
      ensures Valid() && below == old(below)
      ensures Contents() == Concat(old(stack)[|below|..|old(stack)| - 1]) + old(buffer) + value
    {
      var n := |stack| - 1;
      var s := stack[n];
      ghost var pieces := stack[|below|..n];
      if |s| <= size - |buffer| {
        assert Concat(pieces) + (buffer + s) == Concat(pieces) + buffer + s;
        buffer := buffer + s;
        stack := stack[..n];
        assert stack[|below|..] == pieces;
      } else {
        stack := stack[..n];
        assert stack[|below|..] == pieces;
        var _ := EmptyBuffer();
        PushPiece(s);
        var _ := AdjustStack();
      }
    }

    /** The value on top becomes a piece; with it there may be one piece more than the limit. */
    method PushPiece(s: string)
      requires Holds() && buffer == "" && lvl <= LIMIT
      modifies `stack, `lvl
      ensures Holds() && Contents() == old(Contents()) + s && lvl == old(lvl) + 1 <= LIMIT + 1
    {
      ghost var pieces := stack[|below|..];
      ConcatParts(pieces, [s]);
      ConcatOne(s);
      hide Concat;
      assert old(Contents()) == Concat(pieces) by { assert Concat(pieces) + "" == Concat(pieces); }
      stack := stack + [s];
      assert stack[|below|..] == pieces + [s];
      lvl := lvl + 1;
      ghost var whole := Concat(pieces + [s]);
      assert Contents() == whole + "" == whole;
    }

    /** luaL_pushresult: the stack as it was, and one string with everything that was added. */
    method PushResult()
      requires Valid()
      modifies this
      ensures Valid() && stack == old(below) + [old(Contents())] && lvl == 1 && below == old(below)
    {
      var _ := EmptyBuffer();
      if lvl == 0 {
        assert stack[|below|..] == [];
        assert stack == below;
        stack := stack + [""];
      } else {
        var n := |stack| - lvl;
        assert Contents() == Concat(stack[n..]);
        stack := stack[..n] + [Concat(stack[n..])];
      }
      lvl := 1;
    }
  }
}
