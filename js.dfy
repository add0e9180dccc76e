/**
 * The parts of JavaScript's semantics that the server and the client lean on:
 * truthiness and `||` defaults, node-postgres parameter binding, the `\s`
 * class of regular expressions, `.length` in UTF-16 code units,
 * `toLowerCase`/`includes`, `String.prototype.split(' ')`, `toString` and
 * `parseInt` on numbers, and loose `==` between a number and a string.
 */
module Js {
  import opened Base

  /** A field of a JSON request body or a JavaScript argument: absent, `null`, or a string. */
  datatype Value = Undefined | Null | Str(s: string)

  /** JavaScript truthiness of such a value: only a non-empty string is truthy. */
  predicate Truthy(v: Value) {
    v.Str? && v.s != ""
  }

  /** `v || fallback` */
  function OrElse(v: Value, fallback: string): Value {
    if Truthy(v) then v else Str(fallback)
  }

  /** node-postgres binds an `undefined` parameter as SQL NULL. */
  function ToSql(v: Value): Value {
    if v == Undefined then Null else v
  }

  // ---------------------------------------------------------------- characters

  /** The characters `\s` matches (WhiteSpace and LineTerminator of ECMAScript). */
  predicate IsWhiteSpace(c: char) {
    var n := c as int;
    n == 0x09 || n == 0x0A || n == 0x0B || n == 0x0C || n == 0x0D || n == 0x20 ||
    n == 0xA0 || n == 0x1680 || (0x2000 <= n <= 0x200A) || n == 0x2028 || n == 0x2029 ||
    n == 0x202F || n == 0x205F || n == 0x3000 || n == 0xFEFF
  }

  predicate IsDigit(c: char) {
    '0' <= c <= '9'
  }

  /** The class `[a-zA-Z0-9_]`. */
  predicate IsWordChar(c: char) {
    'a' <= c <= 'z' || 'A' <= c <= 'Z' || IsDigit(c) || c == '_'
  }

  predicate AllDigits(s: string) {
    forall i :: 0 <= i < |s| ==> IsDigit(s[i])
  }

  /** `s.length`: the number of UTF-16 code units, two for a character outside the BMP. */
  function Utf16Length(s: string): (n: nat)
    ensures |s| <= n <= 2 * |s|
    ensures (forall i :: 0 <= i < |s| ==> s[i] as int <= 0xFFFF) ==> n == |s|
  {
    if s == [] then 0 else (if s[0] as int > 0xFFFF then 2 else 1) + Utf16Length(s[1..])
  }

  // ---------------------------------------------------------------- lowercase, includes

  function LowerChar(c: char): char {
    if 'A' <= c <= 'Z' then (c as int + 32) as char else c
  }

  /** `s.toLowerCase()` on the ASCII letters. */
  function ToLower(s: string): (r: string)
    ensures |r| == |s|
    ensures forall i :: 0 <= i < |s| ==> r[i] == LowerChar(s[i])
  {
    if s == [] then [] else [LowerChar(s[0])] + ToLower(s[1..])
  }

  /** `part` occurs in `s` starting at index `i`. */
  predicate OccursAt(s: string, part: string, i: int) {
    0 <= i && i + |part| <= |s| && s[i..i + |part|] == part
  }

  /** `s.includes(part)` */
  predicate Includes(s: string, part: string) {
    exists i | 0 <= i <= |s| - |part| :: OccursAt(s, part, i)
  }

  /** A string can only include a part all of whose characters occur in it. */
  lemma MissingCharExcludes(s: string, part: string, c: char)
    requires c in part && c !in s
    ensures !Includes(s, part)
  {
    var j :| 0 <= j < |part| && part[j] == c;
    forall i | 0 <= i <= |s| - |part| ensures !OccursAt(s, part, i) {
      assert s[i..i + |part|][j] == s[i + j];
    }
  }

  /** Every string includes its prefixes. */
  lemma PrefixIncluded(s: string, part: string)
    requires |part| <= |s| && s[..|part|] == part
    ensures Includes(s, part)
  {
    assert OccursAt(s, part, 0);
  }

  /** A string that includes a part includes every part of that part. */
  lemma IncludesTransitive(s: string, part: string, sub: string)
    requires Includes(s, part) && Includes(part, sub)
    ensures Includes(s, sub)
  {
    var i :| 0 <= i <= |s| - |part| && OccursAt(s, part, i);
    var j :| 0 <= j <= |part| - |sub| && OccursAt(part, sub, j);
    forall k | 0 <= k < |sub| ensures s[i + j + k] == sub[k] {
      assert sub[k] == part[j..j + |sub|][k] == part[j + k];
      assert part[j + k] == s[i..i + |part|][j + k] == s[i + j + k];
    }
    assert s[i + j..i + j + |sub|] == sub;
    assert OccursAt(s, sub, i + j);
  }

  // ---------------------------------------------------------------- split(' ')

  /** `s.split(' ')`: the pieces between single spaces, empty pieces included. */
  function Split(s: string): (pieces: seq<string>)
    ensures |pieces| >= 1
  {
    if s == [] then [""]
    else if s[0] == ' ' then [""] + Split(s[1..])
    else
      var rest := Split(s[1..]);
      [[s[0]] + rest[0]] + rest[1..]
  }

  /** `pieces.join(' ')` */
  function Join(pieces: seq<string>): string
    requires |pieces| >= 1
  {
    if |pieces| == 1 then pieces[0] else pieces[0] + " " + Join(pieces[1..])
  }

  predicate NoSpaceIn(pieces: seq<string>) {
    forall i :: 0 <= i < |pieces| ==> ' ' !in pieces[i]
  }

  /** Splitting loses nothing but the separators: joining the pieces gives the string back. */
  lemma {:induction false} JoinSplit(s: string)
    ensures Join(Split(s)) == s
    ensures NoSpaceIn(Split(s))
  {
    if s == [] {
    } else if s[0] == ' ' {
      JoinSplit(s[1..]);
      assert Split(s)[1..] == Split(s[1..]);
    } else {
      JoinSplit(s[1..]);
      var rest := Split(s[1..]);
      var pieces := Split(s);
      assert pieces[1..] == rest[1..];
      if |rest| == 1 {
        assert s == [s[0]] + rest[0];
      } else {
        assert rest[1..] == rest[1..][0..];
        assert Join(rest) == rest[0] + " " + Join(rest[1..]);
        assert s == [s[0]] + s[1..];
      }
      forall i | 0 <= i < |pieces| ensures ' ' !in pieces[i] {
        if i > 0 {
          assert pieces[i] == rest[i];
        }
      }
    }
  }

  /** Splitting a string that starts with a space-free word puts that word in front of the first piece. */
  lemma {:induction false} SplitAfterWord(word: string, t: string)
    requires ' ' !in word
    ensures Split(word + t) == [word + Split(t)[0]] + Split(t)[1..]
  {
    if word == [] {
      assert word + t == t;
      var p := Split(t);
      assert word + p[0] == p[0];
      assert p == [p[0]] + p[1..];
    } else {
      assert word[0] in word && ' ' !in word[1..];
      SplitAfterWord(word[1..], t);
      var s := word + t;
      assert s[0] == word[0] && s[0] != ' ';
      assert s[1..] == word[1..] + t;
      var rest := Split(s[1..]);
      assert rest == [word[1..] + Split(t)[0]] + Split(t)[1..];
      assert Split(s) == [[s[0]] + rest[0]] + rest[1..];
      assert [word[0]] + (word[1..] + Split(t)[0]) == word + Split(t)[0];
    }
  }

  /** Splitting what `Join` produced from space-free pieces gives the pieces back. */
  lemma {:induction false} SplitJoin(pieces: seq<string>)
    requires |pieces| >= 1 && NoSpaceIn(pieces)
    ensures Split(Join(pieces)) == pieces
  {
    if |pieces| == 1 {
      SplitAfterWord(pieces[0], "");
      assert pieces[0] + "" == pieces[0];
    } else {
      assert NoSpaceIn(pieces[1..]) by {
        forall i | 0 <= i < |pieces[1..]| ensures ' ' !in pieces[1..][i] {
          assert pieces[1..][i] == pieces[i + 1];
        }
      }
      SplitJoin(pieces[1..]);
      var tail := " " + Join(pieces[1..]);
      assert Join(pieces) == pieces[0] + tail;
      assert tail[0] == ' ' && tail[1..] == Join(pieces[1..]);
      assert Split(tail) == [""] + pieces[1..];
      assert ' ' !in pieces[0];
      SplitAfterWord(pieces[0], tail);
      assert pieces[0] + "" == pieces[0];
      assert [pieces[0]] + pieces[1..] == pieces;
    }
  }

  // ---------------------------------------------------------------- numbers

  function DigitChar(d: nat): char
    requires d < 10
  {
    ('0' as int + d) as char
  }

  /** The value of a string of decimal digits, most significant first. */
  function DigitsValue(ds: string): nat
    requires AllDigits(ds)
  {
    if ds == [] then 0 else DigitsValue(ds[..|ds| - 1]) * 10 + (ds[|ds| - 1] as int - '0' as int)
  }

  /** `n.toString()` for a non-negative integer. */
  function Decimal(n: nat): (s: string)
    ensures |s| >= 1 && AllDigits(s)
    ensures n > 0 ==> s[0] != '0'
  {
    if n < 10 then [DigitChar(n)] else Decimal(n / 10) + [DigitChar(n % 10)]
  }

  /** Reading back the digits of `toString` gives the number. */
  lemma {:induction false} DecimalValue(n: nat)
    ensures DigitsValue(Decimal(n)) == n
  {
    if n >= 10 {
      DecimalValue(n / 10);
      var s := Decimal(n);
      assert s[..|s| - 1] == Decimal(n / 10);
    }
  }

  /**
   * Loose equality `n == s` between a number and a string: `s` converts to a
   * number. Only strings of decimal digits are modelled (see README).
   */
  predicate LooseEquals(n: int, s: string) {
    s != "" && AllDigits(s) && DigitsValue(s) == n
  }

  function TrimStart(s: string): (r: string)
    ensures |r| <= |s| && r == s[|s| - |r|..]
    ensures r != [] ==> !IsWhiteSpace(r[0])
  {
    if s != [] && IsWhiteSpace(s[0]) then TrimStart(s[1..]) else s
  }

  /** The longest prefix of decimal digits. */
  function DigitPrefix(s: string): (ds: string)
    ensures |ds| <= |s| && ds == s[..|ds|] && AllDigits(ds)
    ensures |ds| < |s| ==> !IsDigit(s[|ds|])
  {
    if s != [] && IsDigit(s[0]) then [s[0]] + DigitPrefix(s[1..]) else []
  }

  /**
   * `parseInt(s, 10)`: leading white space, an optional sign, then the longest
   * run of digits; `None` stands for NaN (no digit at all).
   */
  function ParseInt(s: string): Option<int> {
    var t := TrimStart(s);
    var negative := t != [] && t[0] == '-';
    var body := if t != [] && (t[0] == '-' || t[0] == '+') then t[1..] else t;
    var ds := DigitPrefix(body);
    var magnitude: int := DigitsValue(ds);
    if ds == [] then None else Some(if negative then -magnitude else magnitude)
  }

  /** A string of digits is its own longest digit prefix. */
  lemma {:induction false} DigitPrefixOfDigits(s: string)
    requires AllDigits(s)
    ensures DigitPrefix(s) == s
  {
    if s != [] {
      assert AllDigits(s[1..]) by {
        forall i | 0 <= i < |s[1..]| ensures IsDigit(s[1..][i]) {
          assert s[1..][i] == s[i + 1];
        }
      }
      DigitPrefixOfDigits(s[1..]);
      assert [s[0]] + s[1..] == s;
    }
  }

  /** A non-empty string of digits parses to its value. */
  lemma ParseIntOfDigits(s: string)
    requires s != "" && AllDigits(s)
    ensures ParseInt(s) == Some(DigitsValue(s))
  {
    assert IsDigit(s[0]);
    assert !IsWhiteSpace(s[0]);
    assert TrimStart(s) == s;
    DigitPrefixOfDigits(s);
  }

  /** `parseInt(n.toString(), 10) === n`: the draggable id of a card gives its ticket id back. */
  lemma ParseIntOfDecimal(n: nat)
    ensures ParseInt(Decimal(n)) == Some(n)
  {
    ParseIntOfDigits(Decimal(n));
    DecimalValue(n);
  }

  /** `n == n.toString()` holds loosely, and the string names no other number. */
  lemma LooseEqualsDecimal(n: nat, m: int)
    ensures LooseEquals(n, Decimal(n))
    ensures LooseEquals(m, Decimal(n)) ==> m == n
  {
    DecimalValue(n);
  }
}
