/**
 * The PHP string built-ins the deployment helper relies on, on Linux
 * (DIRECTORY_SEPARATOR is '/'): rtrim/ltrim/trim with a character list,
 * strpos used as a containment test, implode, strrpos for one character,
 * basename, dirname, %d formatting and strtr with a replacement array.
 */
module PhpStrings {
  import opened Wrappers

  /** The default character list of PHP's trim/rtrim. */
  const Whitespace: set<char> := {' ', '\t', '\n', '\r', '\0', '\U{B}'}

  /** rtrim($s, $chars): drop trailing characters that are in `chars`. */
  function RTrim(s: string, chars: set<char>): string
    decreases |s|
  {
    if |s| > 0 && s[|s| - 1] in chars then RTrim(s[..|s| - 1], chars) else s
  }

  /** rtrim keeps a prefix that does not end in the list and removes only characters of the list. */
  lemma {:induction false} RTrimShape(s: string, chars: set<char>)
    ensures var r := RTrim(s, chars);
            |r| <= |s| && r == s[..|r|] && (|r| > 0 ==> r[|r| - 1] !in chars)
            && forall i :: |r| <= i < |s| ==> s[i] in chars
    decreases |s|
  {
    if |s| > 0 && s[|s| - 1] in chars {
      RTrimShape(s[..|s| - 1], chars);
      var r := RTrim(s, chars);
      assert s[..|s| - 1][..|r|] == s[..|r|];
    }
  }

  /** ltrim($s, $chars): drop leading characters that are in `chars`. */
  function LTrim(s: string, chars: set<char>): string
    decreases |s|
  {
    if |s| > 0 && s[0] in chars then LTrim(s[1..], chars) else s
  }

  /** ltrim keeps a suffix that does not start with the list and removes only characters of the list. */
  lemma {:induction false} LTrimShape(s: string, chars: set<char>)
    ensures var r := LTrim(s, chars);
            |r| <= |s| && r == s[|s| - |r|..] && (|r| > 0 ==> r[0] !in chars)
            && forall i :: 0 <= i < |s| - |r| ==> s[i] in chars
    decreases |s|
  {
    if |s| > 0 && s[0] in chars {
      LTrimShape(s[1..], chars);
      var r := LTrim(s, chars);
      assert s[1..][|s| - 1 - |r|..] == s[|s| - |r|..];
    }
  }

  /** trim($s, $chars). */
  function Trim(s: string, chars: set<char>): string {
    LTrim(RTrim(s, chars), chars)
  }

  /** Trimming an already trimmed string changes nothing. */
  lemma RTrimIdempotent(s: string, chars: set<char>)
    ensures RTrim(RTrim(s, chars), chars) == RTrim(s, chars)
  {
  }

  /** Trimming is the inverse of padding: appending characters of the list to a string that does not
      already end in one of them is undone by rtrim. */
  lemma {:induction false} RTrimPadding(s: string, pad: string, chars: set<char>)
    requires |s| > 0 ==> s[|s| - 1] !in chars
    requires forall i :: 0 <= i < |pad| ==> pad[i] in chars
    ensures RTrim(s + pad, chars) == s
    decreases |pad|
  {
    if |pad| > 0 {
      assert (s + pad)[..|s + pad| - 1] == s + pad[..|pad| - 1];
      RTrimPadding(s, pad[..|pad| - 1], chars);
    } else {
      assert s + pad == s;
    }
  }

  /** Whether `s` starts with `prefix`. */
  predicate StartsWith(s: string, prefix: string) {
    |prefix| <= |s| && s[..|prefix|] == prefix
  }

  /** strpos($hay, $needle) !== FALSE (PHP 8: the empty needle is found at 0). */
  predicate Contains(hay: string, needle: string)
    decreases |hay|
  {
    StartsWith(hay, needle) || (|hay| > 0 && Contains(hay[1..], needle))
  }

  /** `needle` occurs in `hay` at offset `i`. */
  predicate OccursAt(hay: string, needle: string, i: int) {
    0 <= i && i + |needle| <= |hay| && hay[i..i + |needle|] == needle
  }

  /** Containment means an occurrence at some offset, in both directions. */
  lemma {:induction false} ContainsIff(hay: string, needle: string)
    ensures Contains(hay, needle) <==> exists i :: OccursAt(hay, needle, i)
    decreases |hay|
  {
    if StartsWith(hay, needle) {
      assert OccursAt(hay, needle, 0);
    } else if |hay| > 0 {
      ContainsIff(hay[1..], needle);
      if Contains(hay[1..], needle) {
        var i :| OccursAt(hay[1..], needle, i);
        assert hay[i + 1..i + 1 + |needle|] == hay[1..][i..i + |needle|];
        assert OccursAt(hay, needle, i + 1);
      } else {
        forall i | 0 < i ensures !OccursAt(hay, needle, i) {
          var j := i - 1;
          if j + 1 + |needle| <= |hay| {
            assert hay[1..][j..j + |needle|] == hay[j + 1..j + 1 + |needle|];
            assert !OccursAt(hay[1..], needle, j);
          }
        }
      }
    } else {
      assert forall i :: !OccursAt(hay, needle, i);
    }
  }

  /** A string contains each of its infixes. */
  lemma {:induction false} ContainsInfix(a: string, needle: string, b: string)
    ensures Contains(a + needle + b, needle)
  {
    var hay := a + needle + b;
    assert hay[|a|..|a| + |needle|] == needle;
    assert OccursAt(hay, needle, |a|);
    ContainsIff(hay, needle);
  }

  /** implode($sep, $parts). */
  function Join(sep: string, parts: seq<string>): (r: string)
    ensures |parts| == 1 ==> r == parts[0]
  {
    if |parts| == 0 then ""
    else if |parts| == 1 then parts[0]
    else parts[0] + sep + Join(sep, parts[1..])
  }

  /** Joining a list extended by one part appends the separator and the part. */
  lemma {:induction false} JoinSnoc(sep: string, parts: seq<string>, last: string)
    requires |parts| > 0
    ensures Join(sep, parts + [last]) == Join(sep, parts) + sep + last
    decreases |parts|
  {
    if |parts| == 1 {
      assert parts + [last] == [parts[0], last];
      assert (parts + [last])[1..] == [last];
    } else {
      assert (parts + [last])[1..] == parts[1..] + [last];
      JoinSnoc(sep, parts[1..], last);
    }
  }

  /** strrpos($s, $c) for a single character: the last index holding `c`, if any. */
  function LastIndexOf(s: string, c: char): (r: Option<nat>)
    ensures r.Some? ==> r.value < |s|
    decreases |s|
  {
    if |s| == 0 then None
    else if s[|s| - 1] == c then Some(|s| - 1)
    else LastIndexOf(s[..|s| - 1], c)
  }

  /** strrpos finds the last occurrence, and finds nothing exactly when the character is absent. */
  lemma {:induction false} LastIndexOfSpec(s: string, c: char)
    ensures var r := LastIndexOf(s, c);
            (r.Some? ==> r.value < |s| && s[r.value] == c && forall j :: r.value < j < |s| ==> s[j] != c)
            && (r.None? <==> c !in s)
    decreases |s|
  {
    if |s| > 0 && s[|s| - 1] != c {
      LastIndexOfSpec(s[..|s| - 1], c);
      assert forall j :: 0 <= j < |s| - 1 ==> s[..|s| - 1][j] == s[j];
      assert c in s[..|s| - 1] <==> c in s;
    }
  }

  /** basename($path) on Linux: the part after the last '/', ignoring trailing slashes. */
  function Basename(path: string): string {
    var t := RTrim(path, {'/'});
    match LastIndexOf(t, '/')
    case None => t
    case Some(i) =>
      t[i + 1..]
  }

  /** dirname($path) on Linux: the part before the last '/', "." when there is none, "/" at the root. */
  function Dirname(path: string): string {
    var t := RTrim(path, {'/'});
    if t == "" then (if path == "" then "" else "/")
    else match LastIndexOf(t, '/')
      case None => "."
      case Some(i) =>
        var d := RTrim(t[..i], {'/'});
        if d == "" then "/" else d
  }

  /** basename never contains a separator. */
  lemma BasenameHasNoSlash(path: string)
    ensures '/' !in Basename(path)
  {
    var t := RTrim(path, {'/'});
    RTrimShape(path, {'/'});
    LastIndexOfSpec(t, '/');
    match LastIndexOf(t, '/')
    case None =>
    case Some(i) =>
      var u := t[i + 1..];
      assert forall j :: 0 <= j < |u| ==> u[j] == t[i + 1 + j];
  }

  /** dirname of a non-empty path is never empty ("." or "/" at least). */
  lemma DirnameNonEmpty(path: string)
    requires path != ""
    ensures Dirname(path) != ""
  {
  }

  /** A file name joined below a directory: dirname gives the directory back, basename the file. */
  lemma DirnameBasenameOfJoin(dir: string, name: string)
    requires dir != "" && dir[|dir| - 1] != '/'
    requires name != "" && '/' !in name
    ensures Dirname(dir + "/" + name) == dir
    ensures Basename(dir + "/" + name) == name
  {
    var p := dir + "/" + name;
    assert RTrim(p, {'/'}) == p;
    var k := LastIndexOf(p, '/');
    LastIndexOfSpec(p, '/');
    assert p[|dir|] == '/';
    assert forall j :: |dir| < j < |p| ==> p[j] == name[j - |dir| - 1];
    assert k == Some(|dir|);
    assert p[..|dir|] == dir;
    assert p[|dir| + 1..] == name;
  }

  /** The decimal digits of a natural number. */
  function NatToString(n: nat): string {
    if n < 10 then [(n + '0' as int) as char]
    else NatToString(n / 10) + [(n % 10 + '0' as int) as char]
  }

  /** %d of a natural number is a non-empty run of decimal digits. */
  lemma {:induction false} NatToStringDigits(n: nat)
    ensures |NatToString(n)| > 0 && forall i :: 0 <= i < |NatToString(n)| ==> '0' <= NatToString(n)[i] <= '9'
  {
    if n >= 10 {
      NatToStringDigits(n / 10);
    }
  }

  /** Different naturals print differently. */
  lemma {:induction false} NatToStringInjective(n: nat, m: nat)
    requires NatToString(n) == NatToString(m)
    ensures n == m
  {
    var s := NatToString(n);
    if n >= 10 {
      NatToStringDigits(n / 10);
    }
    if m >= 10 {
      NatToStringDigits(m / 10);
    }
    assert s[|s| - 1] == (n % 10 + '0' as int) as char && s[|s| - 1] == (m % 10 + '0' as int) as char;
    if n >= 10 && m >= 10 {
      assert NatToString(n / 10) == s[..|s| - 1] == NatToString(m / 10);
      NatToStringInjective(n / 10, m / 10);
    }
  }

  /** sprintf('%d', $n). */
  function IntToString(n: int): string {
    if n < 0 then "-" + NatToString(-n) else NatToString(n)
  }

  /** %d prints a sign and digits only. */
  lemma IntToStringChars(n: int)
    ensures forall i :: 0 <= i < |IntToString(n)| ==> IntToString(n)[i] == '-' || '0' <= IntToString(n)[i] <= '9'
  {
    if n < 0 {
      NatToStringDigits(-n);
    } else {
      NatToStringDigits(n);
    }
  }

  /** Different integers print differently: the sign, then the digits, tell them apart. */
  lemma IntToStringInjective(n: int, m: int)
    requires IntToString(n) == IntToString(m)
    ensures n == m
  {
    var s := IntToString(n);
    if n < 0 {
      NatToStringDigits(-n);
      assert s[1..] == NatToString(-n);
    } else {
      NatToStringDigits(n);
    }
    if m < 0 {
      NatToStringDigits(-m);
      assert s[1..] == NatToString(-m);
    } else {
      NatToStringDigits(m);
    }
    assert (n < 0) == (s[0] == '-') == (m < 0);
    if n < 0 {
      NatToStringInjective(-n, -m);
    } else {
      NatToStringInjective(n, m);
    }
  }

  /**
   * The longest key of `pairs` that occurs at the start of `s` (PHP's strtr tries
   * longer keys first; empty keys are ignored). Returns the index into `pairs`.
   */
  function LongestMatch(s: string, pairs: seq<(string, string)>): (r: Option<nat>)
    ensures r.Some? ==> r.value < |pairs| && pairs[r.value].0 != "" && StartsWith(s, pairs[r.value].0)
    ensures r.Some? ==> forall j :: 0 <= j < |pairs| && pairs[j].0 != "" && StartsWith(s, pairs[j].0)
                          ==> |pairs[j].0| <= |pairs[r.value].0|
    ensures r.None? ==> forall j :: 0 <= j < |pairs| ==> pairs[j].0 == "" || !StartsWith(s, pairs[j].0)
    decreases |pairs|
  {
    if |pairs| == 0 then None
    else
      var rest := LongestMatch(s, pairs[1..]);
      var here := pairs[0].0 != "" && StartsWith(s, pairs[0].0);
      assert forall j :: 1 <= j < |pairs| ==> pairs[j] == pairs[1..][j - 1];
      match rest
      case None => if here then Some(0) else None
      case Some(k) =>
        if here && |pairs[0].0| >= |pairs[k + 1].0| then Some(0) else Some(k + 1)
  }

  /**
   * strtr($s, $pairs): scan left to right; at each position replace the longest
   * matching key by its value and continue after it; replaced text is not rescanned.
   */
  function StrTr(s: string, pairs: seq<(string, string)>): string
    decreases |s|
  {
    if s == [] then []
    else match LongestMatch(s, pairs)
      case None => [s[0]] + StrTr(s[1..], pairs)
      case Some(k) => pairs[k].1 + StrTr(s[|pairs[k].0|..], pairs)
  }

  /** Text in which no key occurs is left unchanged by strtr. */
  lemma {:induction false} StrTrNoKey(s: string, pairs: seq<(string, string)>)
    requires forall j, i :: 0 <= j < |pairs| && 0 <= i <= |s| && pairs[j].0 != "" ==> !StartsWith(s[i..], pairs[j].0)
    ensures StrTr(s, pairs) == s
    decreases |s|
  {
    if s != [] {
      assert s[0..] == s;
      assert LongestMatch(s, pairs).None?;
      forall j, i | 0 <= j < |pairs| && 0 <= i <= |s[1..]| && pairs[j].0 != ""
        ensures !StartsWith(s[1..][i..], pairs[j].0)
      {
        assert s[1..][i..] == s[i + 1..];
      }
      StrTrNoKey(s[1..], pairs);
    }
  }

  /** Where no key starts, strtr copies one character and goes on with the rest. */
  lemma StrTrSkip(s: string, pairs: seq<(string, string)>)
    requires s != [] && LongestMatch(s, pairs).None?
    ensures StrTr(s, pairs) == [s[0]] + StrTr(s[1..], pairs)
  {
  }

  /** Where no key starts, no key matches. */
  lemma NoKeyNoMatch(s: string, n: nat, pairs: seq<(string, string)>)
    requires n <= |s|
    requires forall j, i {:trigger StartsWith(s[i..], pairs[j].0)} ::
               0 <= j < |pairs| && 0 <= i < n && pairs[j].0 != "" ==> !StartsWith(s[i..], pairs[j].0)
    ensures forall i :: 0 <= i < n ==> LongestMatch(s[i..], pairs).None?
  {
  }

  /** The first n characters, at none of which a key starts, are copied unchanged, and the scan resumes after them. */
  lemma {:induction false} StrTrPlainPrefix(s: string, n: nat, pairs: seq<(string, string)>)
    requires n <= |s|
    requires forall i :: 0 <= i < n ==> LongestMatch(s[i..], pairs).None?
    ensures StrTr(s, pairs) == s[..n] + StrTr(s[n..], pairs)
    decreases n
  {
    if n > 0 {
      var rest := StrTr(s[n..], pairs);
      assert StrTr(s, pairs) == s[..n - 1] + StrTr(s[n - 1..], pairs) by {
        StrTrPlainPrefix(s, n - 1, pairs);
      }
      assert StrTr(s[n - 1..], pairs) == [s[n - 1]] + rest by {
        var t := s[n - 1..];
        assert t[1..] == s[n..];
        StrTrSkip(t, pairs);
      }
      assert s[..n - 1] + ([s[n - 1]] + rest) == s[..n] + rest by {
        assert s[..n - 1] + [s[n - 1]] == s[..n];
      }
    }
  }

  /**
   * Where `key` is a longest match at the start (a longer key does not match there)
   * and every copy of it in the table carries the same value, strtr emits that
   * value and continues after the key.
   */
  lemma StrTrAtLongest(key: string, rest: string, pairs: seq<(string, string)>, k: nat)
    requires k < |pairs| && pairs[k].0 == key && key != ""
    requires forall j :: 0 <= j < |pairs| && pairs[j].0 != "" && StartsWith(key + rest, pairs[j].0) ==> |pairs[j].0| <= |key|
    requires forall j :: 0 <= j < |pairs| && pairs[j].0 == key ==> pairs[j].1 == pairs[k].1
    ensures StrTr(key + rest, pairs) == pairs[k].1 + StrTr(rest, pairs)
  {
    var s := key + rest;
    assert StartsWith(s, key) by { assert s[..|key|] == key; }
    var m := LongestMatch(s, pairs);
    assert m.Some?;
    assert |pairs[m.value].0| == |key|;
    assert pairs[m.value].0 == s[..|key|] == key;
    assert s[|key|..] == rest;
  }

  /**
   * strtr over pre + key + post, where no key starts inside pre and `key` is a
   * longest match after it (equal copies carrying the same value): pre is kept,
   * key becomes its value and the scan goes on in post.
   */
  lemma StrTrRewriteAt(pre: string, key: string, post: string, pairs: seq<(string, string)>, k: nat)
    requires k < |pairs| && pairs[k].0 == key && key != ""
    requires forall j, i {:trigger StartsWith((pre + key + post)[i..], pairs[j].0)} ::
               0 <= j < |pairs| && 0 <= i < |pre| && pairs[j].0 != "" ==> !StartsWith((pre + key + post)[i..], pairs[j].0)
    requires forall j :: 0 <= j < |pairs| && pairs[j].0 != "" && StartsWith(key + post, pairs[j].0) ==> |pairs[j].0| <= |key|
    requires forall j :: 0 <= j < |pairs| && pairs[j].0 == key ==> pairs[j].1 == pairs[k].1
    ensures StrTr(pre + key + post, pairs) == pre + pairs[k].1 + StrTr(post, pairs)
  {
    assert pre + key + post == pre + (key + post);
    StrTrKeepsPlainPrefix(pre, key + post, pairs);
    StrTrAtLongest(key, post, pairs, k);
    assert pre + (pairs[k].1 + StrTr(post, pairs)) == pre + pairs[k].1 + StrTr(post, pairs);
  }

  /** A text in which no key starts, put in front, is kept by strtr. */
  lemma StrTrKeepsPlainPrefix(pre: string, rest: string, pairs: seq<(string, string)>)
    requires forall j, i {:trigger StartsWith((pre + rest)[i..], pairs[j].0)} ::
               0 <= j < |pairs| && 0 <= i < |pre| && pairs[j].0 != "" ==> !StartsWith((pre + rest)[i..], pairs[j].0)
    ensures StrTr(pre + rest, pairs) == pre + StrTr(rest, pairs)
  {
    var s := pre + rest;
    NoKeyNoMatch(s, |pre|, pairs);
    StrTrPlainPrefix(s, |pre|, pairs);
    assert s[..|pre|] == pre;
    assert s[|pre|..] == rest;
  }

  /** Where a key is the longest match at the start, strtr emits its value and continues after the key. */
  lemma StrTrAtKey(key: string, rest: string, pairs: seq<(string, string)>, k: nat)
    requires k < |pairs| && pairs[k].0 == key && key != ""
    requires forall j :: 0 <= j < |pairs| && j != k ==> pairs[j].0 == "" || !StartsWith(key + rest, pairs[j].0)
    ensures StrTr(key + rest, pairs) == pairs[k].1 + StrTr(rest, pairs)
  {
    var s := key + rest;
    assert StartsWith(s, key) by { assert s[..|key|] == key; }
    var m := LongestMatch(s, pairs);
    assert m == Some(k);
    assert s[|key|..] == rest;
  }
}
