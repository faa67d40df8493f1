/** The few functions of Go's `strings` and `path/filepath` packages the core
    relies on, for strings whose characters stand for single bytes. */
module GoStrings {

  /** `strings.Split(s, sep)` for a one-character separator: the maximal
      separator-free pieces, left to right; never an empty list. */
  function Split(s: string, sep: char): (parts: seq<string>)
    ensures |parts| >= 1
    ensures forall i :: 0 <= i < |parts| ==> sep !in parts[i]
    decreases |s|
  {
    if |s| == 0 then [""]
    else
      var rest := Split(s[1..], sep);
      if s[0] == sep then [""] + rest
      else [[s[0]] + rest[0]] + rest[1..]
  }

  /** `strings.Join(parts, sep)` for a one-character separator. */
  function Join(parts: seq<string>, sep: char): string
    decreases |parts|
  {
    if |parts| == 0 then ""
    else if |parts| == 1 then parts[0]
    else parts[0] + [sep] + Join(parts[1..], sep)
  }

  /** `strings.Join(parts, sep)` for a separator of any length. */
  function JoinWith(parts: seq<string>, sep: string): string
    decreases |parts|
  {
    if |parts| == 0 then ""
    else if |parts| == 1 then parts[0]
    else parts[0] + sep + JoinWith(parts[1..], sep)
  }

  /** How many times `c` occurs in `s`. */
  function Occurrences(s: string, c: char): nat
  {
    multiset(s)[c]
  }

  /** Joining the pieces again gives back the original string. */
  lemma {:induction false} JoinSplit(s: string, sep: char)
    ensures Join(Split(s, sep), sep) == s
    decreases |s|
  {
    if |s| > 0 {
      var rest := Split(s[1..], sep);
      JoinSplit(s[1..], sep);
      if s[0] == sep {
        assert Split(s, sep) == [""] + rest;
        assert s == [sep] + s[1..];
      } else {
        if |rest| == 1 {
          assert Split(s, sep) == [[s[0]] + rest[0]];
        } else {
          assert Split(s, sep)[1..] == rest[1..];
        }
        assert s == [s[0]] + s[1..];
      }
    }
  }

  /** A string without the separator splits into itself alone. */
  lemma {:induction false} SplitWithoutSeparator(s: string, sep: char)
    requires sep !in s
    ensures Split(s, sep) == [s]
    decreases |s|
  {
    if |s| > 0 {
      assert sep !in s[1..] by { assert forall i :: 0 <= i < |s| - 1 ==> s[1..][i] == s[i + 1]; }
      SplitWithoutSeparator(s[1..], sep);
      assert [s[0]] + s[1..] == s;
    }
  }

  /** A separator-free prefix followed by the separator becomes the first piece. */
  lemma {:induction false} SplitAfterFirst(a: string, sep: char, b: string)
    requires sep !in a
    ensures Split(a + [sep] + b, sep) == [a] + Split(b, sep)
    decreases |a|
  {
    if |a| == 0 {
      assert a + [sep] + b == [sep] + b;
      assert ([sep] + b)[1..] == b;
    } else {
      assert sep !in a[1..] by { assert forall i :: 0 <= i < |a| - 1 ==> a[1..][i] == a[i + 1]; }
      SplitAfterFirst(a[1..], sep, b);
      assert (a + [sep] + b)[1..] == a[1..] + [sep] + b;
      assert [a[0]] + a[1..] == a;
    }
  }

  /** A split with a single piece found no separator. */
  lemma {:induction false} OnePieceHasNoSeparator(s: string, sep: char)
    requires |Split(s, sep)| == 1
    ensures sep !in s
    decreases |s|
  {
    if |s| > 0 {
      assert s[0] != sep;
      OnePieceHasNoSeparator(s[1..], sep);
      assert s == [s[0]] + s[1..];
    }
  }

  /** The last piece of a split is a suffix of the string. */
  lemma {:induction false} LastPieceSuffix(s: string, sep: char)
    ensures var parts := Split(s, sep);
            var last := parts[|parts| - 1];
            |last| <= |s| && s[|s| - |last|..] == last
    decreases |s|
  {
    if |s| > 0 {
      var tail := s[1..];
      LastPieceSuffix(tail, sep);
      var rest := Split(tail, sep);
      var last := rest[|rest| - 1];
      var parts := Split(s, sep);
      assert tail[|tail| - |last|..] == s[|s| - |last|..];
      if s[0] == sep {
        assert parts == [""] + rest;
      } else if |rest| == 1 {
        OnePieceHasNoSeparator(tail, sep);
        SplitWithoutSeparator(tail, sep);
        assert parts == [[s[0]] + last];
        assert [s[0]] + tail == s;
      } else {
        assert parts == [[s[0]] + rest[0]] + rest[1..];
      }
    }
  }

  /** The last piece of a split is the part of the string after its last
      separator: it is a suffix, and whatever precedes it ends in the separator. */
  lemma {:induction false} LastPieceIsSuffix(s: string, sep: char)
    ensures var parts := Split(s, sep);
            var last := parts[|parts| - 1];
            |last| <= |s| && s[|s| - |last|..] == last &&
            (|last| < |s| ==> s[|s| - |last| - 1] == sep) &&
            (|parts| > 1 <==> |last| < |s|)
    decreases |s|
  {
    LastPieceSuffix(s, sep);
    if |s| > 0 {
      var tail := s[1..];
      LastPieceIsSuffix(tail, sep);
      var rest := Split(tail, sep);
      var last := rest[|rest| - 1];
      var parts := Split(s, sep);
      if s[0] == sep {
        assert parts == [""] + rest;
        if |last| < |tail| {
          assert s[|s| - |last| - 1] == tail[|tail| - |last| - 1];
        }
      } else if |rest| == 1 {
        assert |parts| == 1;
        assert |rest[0]| == |tail|;
      } else {
        assert parts == [[s[0]] + rest[0]] + rest[1..];
        assert s[|s| - |last| - 1] == tail[|tail| - |last| - 1];
      }
    }
  }

  predicate Contains(s: string, sub: string)
    decreases |s|
  {
    sub <= s || (|s| > 0 && Contains(s[1..], sub))
  }

  /** A string contains every infix. */
  lemma {:induction false} ContainsInfix(a: string, sub: string, b: string)
    ensures Contains(a + sub + b, sub)
    decreases |a|
  {
    if |a| == 0 {
      assert a + sub + b == sub + b;
    } else {
      ContainsInfix(a[1..], sub, b);
      assert (a + sub + b)[1..] == a[1..] + sub + b;
    }
  }

  /** Whatever precedes the last separator, the last piece of the split is
      the separator-free text after it. */
  lemma {:induction false} LastPieceAfter(x: string, sep: char, name: string)
    requires sep !in name
    ensures var parts := Split(x + [sep] + name, sep);
            |parts| >= 2 && parts[|parts| - 1] == name
    decreases |x|
  {
    var s := x + [sep] + name;
    if |x| == 0 {
      assert s == [sep] + name;
      assert s[1..] == name;
      SplitWithoutSeparator(name, sep);
    } else {
      LastPieceAfter(x[1..], sep, name);
      assert s[1..] == x[1..] + [sep] + name;
    }
  }

  /** ASCII upper-case letters map to lower case; every other byte is kept. */
  function LowerByte(c: char): char
  {
    if 'A' <= c <= 'Z' then (c as int + 32) as char else c
  }

  /** `strings.ToLower` over byte strings (ASCII folding only). */
  function ToLower(s: string): (r: string)
    ensures |r| == |s|
    ensures forall i :: 0 <= i < |s| ==> r[i] == LowerByte(s[i])
    ensures forall i :: 0 <= i < |r| ==> !('A' <= r[i] <= 'Z')
  {
    seq(|s|, i requires 0 <= i < |s| => LowerByte(s[i]))
  }

  /** `filepath.Ext(path)`: the suffix starting at the last '.' of the last
      path element, or "" when that element has no '.'. */
  function Ext(path: string): (e: string)
    ensures |e| <= |path| && path[|path| - |e|..] == e
    ensures e != "" ==> e[0] == '.' && '.' !in e[1..] && '/' !in e
    decreases |path|
  {
    if |path| == 0 || path[|path| - 1] == '/' then ""
    else if path[|path| - 1] == '.' then "."
    else
      var e := Ext(path[..|path| - 1]);
      if e == "" then "" else e + [path[|path| - 1]]
  }

  /** The extension is empty exactly when the last path element has no '.'. */
  lemma {:induction false} ExtEmpty(path: string)
    ensures Ext(path) == "" <==> forall i :: 0 <= i < |path| && '/' !in path[i..] ==> path[i] != '.'
    decreases |path|
  {
    if |path| > 0 && path[|path| - 1] != '/' && path[|path| - 1] != '.' {
      var init := path[..|path| - 1];
      ExtEmpty(init);
      forall i | 0 <= i < |init| ensures init[i..] + [path[|path| - 1]] == path[i..] && init[i] == path[i] {
      }
    } else if |path| > 0 && path[|path| - 1] == '/' {
      assert '/' in path[|path| - 1..];
      forall i | 0 <= i < |path| ensures '/' in path[i..] {
        assert path[i..][|path| - 1 - i] == '/';
      }
    } else if |path| > 0 {
      assert '/' !in path[|path| - 1..];
    }
  }
}
