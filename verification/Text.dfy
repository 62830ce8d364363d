/** Strings as Python handles them: splitting at newlines, joining, stripping white space, decimals. */
module Text {

  /** The characters `str.strip` removes. */
  predicate IsSpace(c: char)
  {
    var u := c as int;
    0x09 <= u <= 0x0d || 0x1c <= u <= 0x20 || u == 0x85 || u == 0xa0 || u == 0x1680 ||
    0x2000 <= u <= 0x200a || u == 0x2028 || u == 0x2029 || u == 0x202f || u == 0x205f || u == 0x3000
  }

  function LStrip(s: string): (r: string)
    ensures r == [] || !IsSpace(r[0])
  {
    if s != [] && IsSpace(s[0]) then LStrip(s[1..]) else s
  }

  function RStrip(s: string): (r: string)
    ensures r <= s
    ensures r == [] || !IsSpace(r[|r| - 1])
  {
    if s != [] && IsSpace(s[|s| - 1]) then RStrip(s[..|s| - 1]) else s
  }

  function Strip(s: string): string
  {
    RStrip(LStrip(s))
  }

  function Lines(s: string): (r: seq<string>)
    ensures r != []
  {
    if s == [] then [""]
    else
      var rest := Lines(s[1..]);
      if s[0] == '\n' then [""] + rest else [[s[0]] + rest[0]] + rest[1..]
  }

  function Join(parts: seq<string>, sep: string): string
  {
    if parts == [] then "" else if |parts| == 1 then parts[0] else parts[0] + sep + Join(parts[1..], sep)
  }

  predicate OneLine(s: string)
  {
    '\n' !in s
  }

  function Digit(n: nat): char
    requires n < 10
  {
    "0123456789"[n]
  }

  function Decimal(n: nat): (r: string)
    ensures r != []
    ensures forall c :: c in r ==> '0' <= c <= '9'
  {
    if n < 10 then [Digit(n)] else Decimal(n / 10) + [Digit(n % 10)]
  }

  // ---------- stripping ----------

  lemma {:induction false} LStripSuffix(s: string) returns (k: nat)
    ensures k <= |s| && LStrip(s) == s[k..] && Blank(s[..k])
  {
    if s != [] && IsSpace(s[0]) {
      k := LStripSuffix(s[1..]);
      assert s[1..][k..] == s[k + 1..];
      assert s[..k + 1] == [s[0]] + s[1..][..k];
      k := k + 1;
    } else {
      k := 0;
    }
  }

  /** The stripped text is a stretch of the text, with nothing but white space in front of it. */
  lemma StripIsStretch(s: string) returns (a: nat, b: nat)
    ensures a <= b <= |s| && Strip(s) == s[a..b] && Blank(s[..a])
  {
    a := LStripSuffix(s);
    var r := Strip(s);
    b := a + |r|;
    assert s[a..b] == s[a..][..|r|] == r;
  }

  predicate Blank(s: string)
  {
    forall c :: c in s ==> IsSpace(c)
  }

  predicate Trimmed(s: string)
  {
    s == [] || (!IsSpace(s[0]) && !IsSpace(s[|s| - 1]))
  }

  lemma StripTrims(s: string)
    ensures Trimmed(Strip(s))
  {
    var l := LStrip(s);
    assert RStrip(l) <= l;
  }

  lemma LStripBlank(pre: string, s: string)
    requires Blank(pre) && Trimmed(s)
    ensures s != [] ==> LStrip(pre + s) == s
    ensures LStrip(pre) == []
  {
    if pre == [] {
      assert pre + s == s;
    } else {
      LStripBlank(pre[1..], s);
      assert (pre + s)[1..] == pre[1..] + s;
      assert pre[0] in pre;
    }
  }

  lemma {:induction false} LStripMore(pre: string, s: string)
    requires Blank(pre) && s != [] && !IsSpace(s[0])
    ensures LStrip(pre + s) == s
  {
    if pre == [] {
      assert pre + s == s;
    } else {
      LStripMore(pre[1..], s);
      assert (pre + s)[1..] == pre[1..] + s;
      assert pre[0] in pre;
    }
  }

  lemma {:induction false} RStripMore(s: string, post: string)
    requires Blank(post) && Trimmed(s)
    ensures RStrip(s + post) == s
  {
    if post == [] {
      assert s + post == s;
    } else {
      RStripMore(s, post[..|post| - 1]);
      assert (s + post)[..|s + post| - 1] == s + post[..|post| - 1];
      assert post[|post| - 1] in post;
      assert (s + post)[|s + post| - 1] == post[|post| - 1];
    }
  }

  /** White space around a trimmed text is what stripping removes. */
  lemma StripPadded(pre: string, s: string, post: string)
    requires Blank(pre) && Trimmed(s) && Blank(post)
    ensures Strip(pre + s + post) == s
  {
    if s == [] {
      assert pre + s + post == pre + post;
      assert Blank(pre + post);
      LStripBlank(pre + post, []);
    } else {
      assert pre + s + post == pre + (s + post);
      LStripMore(pre, s + post);
      RStripMore(s, post);
    }
  }

  // ---------- lines ----------

  lemma {:induction false} LinesOneLine(s: string)
    requires OneLine(s)
    ensures Lines(s) == [s]
  {
    if s != [] {
      LinesOneLine(s[1..]);
      assert s[0] in s;
      assert [s[0]] + s[1..] == s;
    }
  }

  lemma {:induction false} LinesOfJoin(ls: seq<string>)
    requires ls != [] && forall l :: l in ls ==> OneLine(l)
    ensures Lines(Join(ls, "\n")) == ls
  {
    if |ls| == 1 {
      LinesOneLine(ls[0]);
    } else {
      LinesOfJoin(ls[1..]);
      LinesOneLine(ls[0]);
      LinesAppend(ls[0], Join(ls[1..], "\n"));
      assert ls[0] + "\n" + Join(ls[1..], "\n") == Join(ls, "\n");
    }
  }

  /** The lines of two texts put together with a newline are the lines of the one and of the other. */
  lemma {:induction false} LinesAppend(a: string, b: string)
    ensures Lines(a + "\n" + b) == Lines(a) + Lines(b)
  {
    var s := a + "\n" + b;
    if a == [] {
      assert s[1..] == b;
    } else {
      assert s[1..] == a[1..] + "\n" + b && s[0] == a[0];
      LinesAppend(a[1..], b);
      LinesHead(a[0], Lines(a[1..]), Lines(b));
    }
  }

  lemma LinesHead(c: char, x: seq<string>, y: seq<string>)
    requires x != []
    ensures [""] + (x + y) == [""] + x + y
    ensures [[c] + (x + y)[0]] + (x + y)[1..] == [[c] + x[0]] + x[1..] + y
  {
    assert (x + y)[1..] == x[1..] + y;
  }

  lemma {:induction false} JoinOfLines(s: string)
    ensures Join(Lines(s), "\n") == s
  {
    if s != [] {
      JoinOfLines(s[1..]);
      var rest := Lines(s[1..]);
      if s[0] == '\n' {
        assert Lines(s)[1..] == rest;
      } else {
        assert Lines(s)[1..] == rest[1..];
      }
    }
  }

  lemma {:induction false} LinesAreOneLine(s: string)
    ensures forall l :: l in Lines(s) ==> OneLine(l)
  {
    if s != [] {
      LinesAreOneLine(s[1..]);
      var rest := Lines(s[1..]);
      assert rest[0] in rest;
      forall l | l in Lines(s)
        ensures OneLine(l)
      {
        assert s[0] == '\n' || l == [s[0]] + rest[0] || l in rest;
      }
    }
  }

  lemma Assoc<T>(a: seq<T>, b: seq<T>, c: seq<T>)
    ensures a + b + c == a + (b + c)
  {
  }

  /** Joining glues: the pieces follow one another. */
  lemma {:induction false} JoinAppend(a: seq<string>, b: seq<string>, sep: string)
    requires a != [] && b != []
    ensures Join(a + b, sep) == Join(a, sep) + sep + Join(b, sep)
  {
    if |a| == 1 {
      assert (a + b)[1..] == b;
    } else {
      JoinAppend(a[1..], b, sep);
      assert (a + b)[1..] == a[1..] + b;
      var head, tail := a[0] + sep, Join(a[1..], sep);
      Assoc(head, tail + sep, Join(b, sep));
      Assoc(head, tail, sep);
    }
  }
}
