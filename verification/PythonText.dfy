/** The parts of Python's `str` the models rely on. */
module PythonText {

  /** `str.isspace` of one character. */
  predicate IsSpace(c: char) {
    var n := c as int;
    9 <= n <= 13 || 28 <= n <= 32 || n == 0x85 || n == 0xA0 || n == 0x1680 || 0x2000 <= n <= 0x200A
    || n in {0x2028, 0x2029, 0x202F, 0x205F, 0x3000}
  }

  function LeftStrip(s: string): string {
    if s != "" && IsSpace(s[0]) then LeftStrip(s[1..]) else s
  }

  function RightStrip(s: string): string {
    if s != "" && IsSpace(s[|s| - 1]) then RightStrip(s[..|s| - 1]) else s
  }

  /** `str.strip()`. */
  function Strip(s: string): string {
    RightStrip(LeftStrip(s))
  }

  /** The characters of `s` that are not white space. */
  function Letters(s: string): string {
    if s == "" then ""
    else (if IsSpace(s[0]) then "" else [s[0]]) + Letters(s[1..])
  }

  lemma {:induction false} LettersOfConcat(a: string, b: string)
    ensures Letters(a + b) == Letters(a) + Letters(b)
  {
    hide IsSpace;
    if a == "" {
      assert a + b == b;
    } else {
      LettersOfConcat(a[1..], b);
      var first := if IsSpace(a[0]) then "" else [a[0]];
      calc {
        Letters(a + b);
        { assert (a + b)[0] == a[0] && (a + b)[1..] == a[1..] + b; }
        first + Letters(a[1..] + b);
        first + (Letters(a[1..]) + Letters(b));
        (first + Letters(a[1..])) + Letters(b);
        Letters(a) + Letters(b);
      }
    }
  }

  lemma {:induction false} LettersOfLeftStrip(s: string)
    ensures Letters(LeftStrip(s)) == Letters(s)
  {
    if s != "" && IsSpace(s[0]) {
      LettersOfLeftStrip(s[1..]);
    }
  }

  lemma {:induction false} LettersOfRightStrip(s: string)
    ensures Letters(RightStrip(s)) == Letters(s)
  {
    if s != "" && IsSpace(s[|s| - 1]) {
      var rest, last := s[..|s| - 1], s[|s| - 1..];
      LettersOfRightStrip(rest);
      LettersOfConcat(rest, last);
      assert s == rest + last && Letters(last) == "";
    }
  }

  lemma LettersOfStrip(s: string)
    ensures Letters(Strip(s)) == Letters(s)
  {
    LettersOfLeftStrip(s);
    LettersOfRightStrip(LeftStrip(s));
  }

  lemma {:induction false} LeftStripDrops(s: string) returns (k: nat)
    ensures k <= |s| && LeftStrip(s) == s[k..] && forall i | 0 <= i < k :: IsSpace(s[i])
    ensures k < |s| ==> !IsSpace(s[k])
  {
    hide IsSpace;
    if s != "" && IsSpace(s[0]) {
      k := LeftStripDrops(s[1..]);
      assert s[1..][k..] == s[k + 1..];
      assert forall i | 0 <= i < k :: s[1..][i] == s[i + 1];
      k := k + 1;
    } else {
      k := 0;
    }
  }

  lemma {:induction false} RightStripDrops(s: string) returns (k: nat)
    ensures k <= |s| && RightStrip(s) == s[..k] && forall i | k <= i < |s| :: IsSpace(s[i])
    ensures k > 0 ==> !IsSpace(s[k - 1])
  {
    hide IsSpace;
    if s != "" && IsSpace(s[|s| - 1]) {
      k := RightStripDrops(s[..|s| - 1]);
    } else {
      k := |s|;
    }
  }

  lemma StrippedEnds(s: string)
    requires Strip(s) == s != ""
    ensures !IsSpace(s[0]) && !IsSpace(s[|s| - 1])
  {
    var a, b := StripLeavesTheMiddle(s);
  }

  lemma StripKeepsInner(s: string)
    requires s != "" && !IsSpace(s[0]) && !IsSpace(s[|s| - 1])
    ensures Strip(s) == s
  {
    assert LeftStrip(s) == s;
  }

  /** `strip` takes white space off both ends, all of it and nothing else. */
  lemma StripLeavesTheMiddle(s: string) returns (a: string, b: string)
    ensures s == a + Strip(s) + b && (forall c <- a + b :: IsSpace(c))
    ensures Strip(s) != "" ==> !IsSpace(Strip(s)[0]) && !IsSpace(Strip(s)[|Strip(s)| - 1])
  {
    hide IsSpace;
    var i := LeftStripDrops(s);
    var k := RightStripDrops(s[i..]);
    a, b := s[..i], s[i + k..];
    assert s[i..][..k] == s[i..i + k];
    assert forall j | k <= j < |s[i..]| :: s[i..][j] == s[i + j];
    forall c | c in a + b
      ensures IsSpace(c)
    {
      if c in b {
        var j :| 0 <= j < |b| && b[j] == c;
        assert s[i..][k + j] == c;
      }
    }
  }
}
