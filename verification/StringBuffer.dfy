/** m2m::String: a zero-terminated text in a heap buffer that grows. */
module StringBuffer {
  import opened CommonTypes
  import CText
  import IntegerText

  /** The characters from position `at` up to the first NUL: a C string. */
  ghost function CString(s: seq<byte>, at: nat): (r: seq<byte>)
    requires at <= |s|
  {
    CText.UpToNul(s[at..])
  }

  ghost predicate Terminated(s: seq<byte>, at: nat) { at <= |s| && 0 in s[at..] }

  /** strlen. */
  method StrLen(s: array<byte>, at: nat) returns (n: nat)
    requires Terminated(s[..], at)
    ensures at + n < s.Length && s[at + n] == 0 && 0 !in s[at..at + n]
    ensures s[at..at + n] == CString(s[..], at)
  {
    ghost var end :| at <= end < s.Length && s[end] == 0;
    n := 0;
    while s[at + n] != 0
      invariant at + n <= end
      invariant forall k | at <= k < at + n :: s[k] != 0
      decreases end - n
    {
      n := n + 1;
    }
    FirstNul(s[..], at, n);
  }

  lemma FirstNul(s: seq<byte>, at: nat, n: nat)
    requires at + n < |s| && s[at + n] == 0 && forall k | at <= k < at + n :: s[k] != 0
    ensures s[at..at + n] == CString(s, at)
  {
    assert s[at..] == s[at..at + n] + s[at + n..];
    UpToNulOf(s[at..at + n], s[at + n..]);
  }

  lemma {:induction false} UpToNulOf(a: seq<byte>, rest: seq<byte>)
    requires 0 !in a && rest != [] && rest[0] == 0
    ensures CText.UpToNul(a + rest) == a
  {
    if a == [] {
      assert a + rest == rest;
    } else {
      assert (a + rest)[1..] == a[1..] + rest;
      UpToNulOf(a[1..], rest);
    }
  }

  /** memmove: the ranges may overlap. */
  method MemMove(dst: array<byte>, to: nat, src: array<byte>, from: nat, n: nat)
    requires to + n <= dst.Length && from + n <= src.Length
    modifies dst
    ensures forall k | to <= k < to + n :: dst[k] == old(src[k - to + from])
    ensures forall k | 0 <= k < dst.Length && !(to <= k < to + n) :: dst[k] == old(dst[k])
  {
    forall k | 0 <= k < n {
      dst[to + k] := src[from + k];
    }
  }

  class String {
    var p: array<byte>
    var space: nat
    var size: nat

    /** The buffer is as long as said, the text fits it, and a NUL follows the text. */
    ghost predicate Valid()
      reads this, p
    {
      space == p.Length && size < space && p[size] == 0
    }

    ghost function Contents(): (s: seq<byte>)
      requires Valid()
      reads this, p
    {
      p[..size]
    }

    constructor ()
      ensures Valid() && fresh(p) && Contents() == []
    {
      p := new byte[1] [0];
      space, size := 1, 0;
    }

    /** A copy of a C string. */
    constructor FromText(s: array<byte>, at: nat)
      requires Terminated(s[..], at)
      ensures Valid() && fresh(p) && Contents() == CString(s[..], at)
    {
      var len := StrLen(s, at);
      var copy := new byte[len + 1];
      MemMove(copy, 0, s, at, len + 1);
      p := copy;
      space, size := len + 1, len;
      new;
      assert p[..size] == s[at..at + len];
    }

    /** A copy of n bytes, which may contain NULs. */
    constructor FromBytes(s: array<byte>, at: nat, n: nat)
      requires at + n <= s.Length
      ensures Valid() && fresh(p) && Contents() == s[at..at + n]
    {
      var copy := new byte[n + 1];
      MemMove(copy, 0, s, at, n);
      copy[n] := 0;
      p := copy;
      space, size := n + 1, n;
      new;
      assert p[..size] == s[at..at + n];
    }

    constructor Copy(other: String)
      requires other.Valid()
      ensures Valid() && fresh(p) && Contents() == other.Contents()
    {
      var copy := new byte[other.size + 1];
      MemMove(copy, 0, other.p, 0, other.size + 1);
      p := copy;
      space, size := other.size + 1, other.size;
    }

    // ------------------------------------------------------------------ memory

    /** realloc to n bytes; the bytes that fit are kept. */
    method NewRealloc(n: nat)
      modifies this`p
      ensures if n > 0 then fresh(p) && p.Length == n else p == old(p)
      ensures forall k | 0 <= k < n && k < old(p.Length) :: p[k] == old(p[k])
    {
      if n > 0 {
        var moved := new byte[n];
        var kept := if n < p.Length then n else p.Length;
        MemMove(moved, 0, p, 0, kept);
        p := moved;
      }
    }

    method Reserve(n: nat)
      requires Valid()
      modifies this
      ensures Valid() && size == old(size) && Contents() == old(Contents())
      ensures n < space
      ensures if n < old(space) then p == old(p) else fresh(p) && space == n + 1
    {
      if n >= space {
        NewRealloc(n + 1);
        space := n + 1;
      }
    }

    // --------------------------------------------------------------- appending

    /** Appending one byte.  The buffer moves only when it is full, and then it at
        least doubles. */
    method PushBack(c: byte)
      requires Valid()
      modifies this, p
      ensures Valid() && (p == old(p) || fresh(p))
      ensures Contents() == old(Contents()) + [c]
      ensures if old(size) + 1 < old(space) then p == old(p) else space >= 2 * old(space)
    {
      if size == space - 1 {
        var more := space * 3 / 2;
        if more < 4 {
          more := 4;
        }
        Reserve(size + more);
      }
      ghost var before := p[..size];
      p[size] := c;
      size := size + 1;
      p[size] := 0;
      assert p[..size] == before + [c];
    }

    /** operator+=(const String&); appending a string to itself doubles it. */
    method AppendString(s: String)
      requires Valid() && s.Valid() && (s == this || s.p != p)
      modifies this, p
      ensures Valid() && (p == old(p) || fresh(p))
      ensures Contents() == old(Contents()) + old(s.Contents())
    {
      if s.size > 0 {
        Reserve(size + s.size);
        ghost var added := s.Contents();
        ghost var n := s.size;
        MemMove(p, size, s.p, 0, s.size + 1);
        size := size + s.size;
        assert p[..size] == old(Contents()) + added;
      } else {
        assert old(Contents()) + old(s.Contents()) == old(Contents());
      }
    }

    /** Exchange two strings' buffers. */
    method Swap(s: String)
      requires Valid() && s.Valid() && s != this
      modifies this, s
      ensures Valid() && s.Valid() && p == old(s.p) && s.p == old(p)
      ensures Contents() == old(s.Contents()) && s.Contents() == old(Contents())
    {
      space, s.space := s.space, space;
      size, s.size := s.size, size;
      p, s.p := s.p, p;
    }

    /** operator+=(const char*); the text may lie in this string's own buffer. */
    method AppendText(s: array<byte>, at: nat)
      requires Valid() && Terminated(s[..], at)
      modifies this, p
      ensures Valid() && (p == old(p) || fresh(p))
      ensures Contents() == old(Contents()) + CString(old(s[..]), at)
    {
      hide CString, CText.UpToNul;
      var lens := StrLen(s, at);
      ghost var added := CString(s[..], at);
      if lens > 0 {
        if size + lens + 1 <= space {
          MemMove(p, size, s, at, lens + 1);
          size := size + lens;
          assert p[..size] == old(Contents()) + added;
        } else {
          AppendToCopy(s, at, lens);
        }
      } else {
        assert old(Contents()) + added == old(Contents());
      }
    }

    /** Append to a copy and take over its buffer. */
    method AppendToCopy(s: array<byte>, at: nat, n: nat)
      requires Valid() && at + n < s.Length && s[at + n] == 0
      modifies this
      ensures Valid() && fresh(p)
      ensures Contents() == old(Contents()) + old(s[at..at + n])
    {
      var s2 := new String.Copy(this);
      s2.Reserve(size + n);
      MemMove(s2.p, size, s, at, n + 1);
      s2.size := size + n;
      assert s2.p[..s2.size] == Contents() + s[at..at + n];
      Swap(s2);
    }

    /** append_raw: n bytes that may contain NULs.  They may lie in this string's own
        buffer only if that need not move. */
    method AppendRaw(s: array?<byte>, at: nat, n: nat)
      requires Valid()
      requires s != null ==> at + n <= s.Length && (s == p ==> size + n < space)
      modifies this, p
      ensures Valid() && (p == old(p) || fresh(p))
      ensures Contents() == if s == null then old(Contents()) else old(Contents()) + old(s[at..at + n])
    {
      if s != null && n > 0 {
        var newLen := size + n;
        Reserve(newLen);
        MemMove(p, size, s, at, n);
        p[newLen] := 0;
        size := newLen;
        assert p[..size] == old(Contents()) + old(s[at..at + n]);
      } else if s != null {
        assert old(Contents()) + old(s[at..at + n]) == old(Contents());
      }
    }

    /** append: at most n characters of a C string. */
    method Append(s: array?<byte>, at: nat, n: nat)
      requires Valid()
      requires s != null ==> Terminated(s[..], at)
      requires s != null && s == p ==>
                 size + n < space || size + |CString(s[..], at)| < space
      modifies this, p
      ensures Valid() && (p == old(p) || fresh(p))
      ensures s == null ==> Contents() == old(Contents())
      ensures s != null ==>
                var text := CString(old(s[..]), at);
                Contents() == old(Contents()) + text[..if n < |text| then n else |text|]
    {
      hide CString, CText.UpToNul;
      if s != null && n > 0 {
        var m := n;
        var lens := StrLen(s, at);
        if m > lens {
          m := lens;
        }
        ghost var added := s[at..at + m];
        assert added == CString(s[..], at)[..m];
        var newLen := size + m;
        Reserve(newLen);
        MemMove(p, size, s, at, m);
        p[newLen] := 0;
        size := newLen;
        assert p[..size] == old(Contents()) + added;
      } else if s != null {
        assert old(Contents()) + [] == old(Contents());
      }
    }

    /** append_int: the decimal text of an int. */
    method AppendInt(param: int)
      requires Valid() && -0x8000_0000 <= param < 0x8000_0000
      modifies this, p
      ensures Valid() && (p == old(p) || fresh(p))
      ensures Contents() == old(Contents()) + CText.DecimalText(param)
    {
      var buffer := new byte[20 + 1];
      CText.TextFitsBuffer(param);
      var len := IntegerText.ItoaC(param, buffer);
      AppendRaw(buffer, 0, len);
    }

    // ------------------------------------------------------- cutting and copying

    method Clear()
      requires Valid()
      modifies this, p
      ensures Valid() && p == old(p) && Contents() == []
    {
      size := 0;
      p[0] := 0;
    }

    /** Cut to n bytes, or fill up to n bytes with c. */
    method Resize(n: nat, c: byte)
      requires Valid()
      modifies this, p
      ensures Valid() && (p == old(p) || fresh(p))
      ensures var s := old(Contents());
        Contents() == if n < |s| then s[..n] else s + seq(n - |s|, _ => c)
    {
      ghost var s := Contents();
      if n < size {
        p[n] := 0;
        size := n;
        assert p[..size] == s[..n];
      } else if n > size {
        Reserve(n);
        for i := size to n
          invariant p != old(p) ==> fresh(p)
          invariant p.Length == space && n < space && size == |s|
          invariant p[..i] == s + seq(i - |s|, _ => c)
        {
          p[i] := c;
          assert p[..i + 1] == (s + seq(i - |s|, _ => c)) + [c];
        }
        p[n] := 0;
        size := n;
        assert p[..size] == s + seq(n - |s|, _ => c);
      } else {
        assert s == s + seq(0, _ => c);
      }
    }

    /** Remove len bytes at pos; they must exist. */
    method Erase(pos: nat, len: nat)
      requires Valid() && (len > 0 && pos < size ==> pos + len <= size)
      modifies this, p
      ensures Valid() && (p == old(p) || fresh(p))
      ensures var s := old(Contents());
        Contents() == if pos < |s| then s[..pos] + s[pos + len..] else s
    {
      ghost var s := Contents();
      if len > 0 {
        if pos < size {
          var remain := size - pos - len;
          if remain > 0 {
            MemMove(p, pos, p, pos + len, remain);
          }
          Resize(pos + remain, 0);
          assert Contents() == s[..pos] + s[pos + len..];
        }
      } else if pos < size {
        assert s == s[..pos] + s[pos..];
      }
    }

    method Substr(pos: nat, length: nat) returns (r: String)
      requires Valid()
      ensures fresh(r) && r.Valid() && fresh(r.p)
      ensures var s := Contents();
        r.Contents() ==
        if pos <= |s| then s[pos..if pos + length < |s| then pos + length else |s|] else []
    {
      r := new String();
      if pos <= size {
        var remain := size - pos;
        var n := if length > remain then remain else length;
        r.Reserve(n);
        MemMove(r.p, 0, p, pos, n);
        r.p[n] := 0;
        r.size := n;
        assert r.p[..n] == p[pos..pos + n];
        assert p[pos..pos + n] == p[..size][pos..pos + n];
      }
    }

    /** operator=(const char*); the text may lie in this string's own buffer. */
    method Assign(s: array<byte>, at: nat)
      requires Valid() && Terminated(s[..], at)
      modifies this, p
      ensures Valid() && (p == old(p) || fresh(p))
      ensures s != old(p) || at > 0 ==> Contents() == CString(old(s[..]), at)
      ensures s == old(p) && at == 0 ==> Contents() == old(Contents())
    {
      if p != s || at != 0 {
        var len := StrLen(s, at);
        var copy := new byte[len + 1];
        MemMove(copy, 0, s, at, len + 1);
        p := copy;
        size := len;
        space := len + 1;
        assert p[..size] == s[at..at + len];
      }
    }
  }
}
