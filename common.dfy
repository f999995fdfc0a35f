/** Outcome types shared by every controller. */
module Common {

  datatype Option<+T> = None | Some(value: T)

  /** The HTTP failures the controllers hand to the error middleware, by status code. */
  datatype Error =
    | BadRequest(message: string)    // 400
    | Forbidden(message: string)     // 403
    | NotFound(message: string)      // 404
    | ServerError(message: string)   // 500, a caught exception

  datatype Result<+T> = Ok(value: T) | Err(error: Error)
}

/**
 * Instants are whole milliseconds in the server's time zone; a calendar day is a
 * block of 86,400,000 of them starting at local midnight.
 */
module Calendar {

  const MsPerDay: int := 86_400_000

  /** The day number of an instant: how many whole days precede its midnight. */
  function DayOf(t: int): int
  {
    t / MsPerDay
  }

  /** `setHours(0, 0, 0, 0)`: the midnight that starts the day of `t`. */
  function Midnight(t: int): (m: int)
    ensures m <= t < m + MsPerDay
    ensures DayOf(m) == DayOf(t)
    ensures m % MsPerDay == 0
  {
    DayOf(t) * MsPerDay
  }

  /** The day of an instant is pinned by the midnight interval it falls in. */
  lemma DayOfBounds(t: int, k: int)
    ensures DayOf(t) == k <==> k * MsPerDay <= t < k * MsPerDay + MsPerDay
  {
    if k * MsPerDay <= t < k * MsPerDay + MsPerDay {
      var q, r := t / MsPerDay, t % MsPerDay;
      assert t == q * MsPerDay + r && 0 <= r < MsPerDay;
      var e := t - k * MsPerDay;
      assert (q - k) * MsPerDay == e - r;
      assert -MsPerDay < (q - k) * MsPerDay < MsPerDay;
    }
  }

  /** An instant lies at or after today's midnight exactly when its day is today or later. */
  lemma AtOrAfterMidnight(t: int, now: int)
    ensures t >= Midnight(now) <==> DayOf(t) >= DayOf(now)
  {
    var k := DayOf(t);
    DayOfBounds(t, k);
    var d := DayOf(now);
    if k >= d {
      assert k * MsPerDay >= d * MsPerDay;
    } else {
      assert k * MsPerDay + MsPerDay <= d * MsPerDay;
    }
  }
}

/** The JavaScript string operations the controllers use, on ASCII text. */
module Text {

  /** `toUpperCase` of one character (ASCII letters only). */
  function Upper(c: char): (u: char)
    ensures 'a' <= c <= 'z' ==> 'A' <= u <= 'Z'
    ensures !('a' <= c <= 'z') ==> u == c
  {
    if 'a' <= c <= 'z' then (c as int - 32) as char else c
  }

  /** `toLowerCase` of one character (ASCII letters only). */
  function LowerChar(c: char): (l: char)
    ensures 'A' <= c <= 'Z' ==> 'a' <= l <= 'z'
    ensures !('A' <= c <= 'Z') ==> l == c
  {
    if 'A' <= c <= 'Z' then (c as int + 32) as char else c
  }

  /** `toLowerCase` of a string. */
  function Lower(s: string): (l: string)
    ensures |l| == |s|
    ensures forall i :: 0 <= i < |s| ==> l[i] == LowerChar(s[i])
  {
    seq(|s|, i requires 0 <= i < |s| => LowerChar(s[i]))
  }

  /** `s.includes(sub)`: `sub` occurs in `s` at some position. */
  predicate Includes(s: string, sub: string)
  {
    exists i :: 0 <= i <= |s| - |sub| && OccursAt(s, sub, i)
  }

  /** `sub` is the slice of `s` that starts at index `i`. */
  predicate OccursAt(s: string, sub: string, i: int)
  {
    0 <= i <= |s| - |sub| && s[i..i + |sub|] == sub
  }

  /** `w.charAt(0).toUpperCase() + w.slice(1)`. */
  function Capitalize(w: string): (r: string)
    ensures |r| == |w|
    ensures w != [] ==> r[0] == Upper(w[0]) && r[1..] == w[1..]
  {
    if w == [] then [] else [Upper(w[0])] + w[1..]
  }

  /** `s.split(sep)` for a one-character separator. */
  function Split(s: string, sep: char): (parts: seq<string>)
    ensures |parts| >= 1
  {
    if s == [] then [[]]
    else
      var rest := Split(s[1..], sep);
      if s[0] == sep then [[]] + rest
      else [[s[0]] + rest[0]] + rest[1..]
  }

  /** A string without the separator splits into itself alone. */
  lemma {:induction false} SplitNoSeparator(s: string, sep: char)
    requires sep !in s
    ensures Split(s, sep) == [s]
  {
    if s != [] {
      assert sep !in s[1..] by {
        forall k | 0 <= k < |s| - 1 ensures s[1..][k] != sep { assert s[1..][k] == s[k + 1]; }
      }
      SplitNoSeparator(s[1..], sep);
      assert [s[0]] + s[1..] == s;
    }
  }

  /** The text before the first separator is the first part; the rest splits on its own. */
  lemma {:induction false} SplitAtFirst(s: string, sep: char, k: nat)
    requires k < |s| && s[k] == sep && sep !in s[..k]
    ensures Split(s, sep) == [s[..k]] + Split(s[k + 1..], sep)
  {
    if k > 0 {
      assert s[0] == s[..k][0];
      assert s[1..][..k - 1] == s[1..k];
      var head := s[1..][..k - 1];
      assert sep !in head by {
        forall m | 0 <= m < k - 1 ensures head[m] != sep { assert head[m] == s[..k][m + 1]; }
      }
      SplitAtFirst(s[1..], sep, k - 1);
      assert s[1..][k..] == s[k + 1..];
      assert [s[0]] + s[1..k] == s[..k];
    }
  }

  /** A string holding the separator splits into at least two parts. */
  lemma SplitHasSecondPart(s: string, sep: char)
    requires sep in s
    ensures |Split(s, sep)| >= 2
  {
    var k := IndexOf(s, sep);
    SplitAtFirst(s, sep, k);
  }

  /** `parts.join(sep)` for a one-character separator. */
  function Join(parts: seq<string>, sep: char): string
  {
    if |parts| == 0 then []
    else if |parts| == 1 then parts[0]
    else parts[0] + [sep] + Join(parts[1..], sep)
  }

  /** Splitting and joining again on the same separator gives back the string. */
  lemma {:induction false} JoinSplit(s: string, sep: char)
    ensures Join(Split(s, sep), sep) == s
  {
    if s != [] {
      var rest := Split(s[1..], sep);
      JoinSplit(s[1..], sep);
      if s[0] == sep {
        assert Split(s, sep) == [[]] + rest;
      } else {
        var parts := Split(s, sep);
        assert parts == [[s[0]] + rest[0]] + rest[1..];
        if |rest| == 1 {
          assert Join(rest, sep) == rest[0];
        } else {
          assert parts[1..] == rest[1..];
          assert Join(rest, sep) == rest[0] + [sep] + Join(rest[1..], sep);
        }
      }
    }
  }

  /** `s.replace(c, d)` with a one-character pattern. */
  function ReplaceFirst(s: string, c: char, d: char): (r: string)
    ensures |r| == |s|
    ensures c !in s ==> r == s
  {
    if s == [] then []
    else if s[0] == c then [d] + s[1..]
    else [s[0]] + ReplaceFirst(s[1..], c, d)
  }

  /** `s.indexOf(c)` for a character that occurs in `s`. */
  function IndexOf(s: string, c: char): (k: nat)
    requires c in s
    ensures k < |s| && s[k] == c && c !in s[..k]
  {
    if s[0] == c then 0
    else
      assert c in s[1..] by {
        var i :| 0 <= i < |s| && s[i] == c;
        assert s[1..][i - 1] == c;
      }
      var k := 1 + IndexOf(s[1..], c);
      assert s[..k] == [s[0]] + s[1..][..k - 1];
      k
  }

  /** Only the first occurrence of the pattern is replaced; the rest is kept. */
  lemma {:induction false} ReplaceFirstOnlyFirst(s: string, c: char, d: char)
    requires c in s
    ensures var k := IndexOf(s, c); ReplaceFirst(s, c, d) == s[..k] + [d] + s[k + 1..]
  {
    if s[0] != c {
      var k := IndexOf(s, c);
      ReplaceFirstOnlyFirst(s[1..], c, d);
      assert IndexOf(s[1..], c) == k - 1;
      assert s[..k] == [s[0]] + s[1..][..k - 1];
      assert s[k + 1..] == s[1..][k..];
    }
  }

  /** The value of the decimal digits at the start of `s` (`parseInt` on a digit string). */
  function DigitsValue(s: string): nat
  {
    DigitsFrom(s, 0)
  }

  function DigitsFrom(s: string, acc: nat): nat
    decreases |s|
  {
    if s == [] || !('0' <= s[0] <= '9') then acc
    else DigitsFrom(s[1..], acc * 10 + (s[0] as int - '0' as int))
  }
}
