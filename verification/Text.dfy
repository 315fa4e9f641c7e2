/** The parts of .NET string handling the inventory rules rely on. */
module Text {
  import opened Prelude

  /** `char.IsWhiteSpace`. */
  predicate IsSpace(c: char) {
    || c == ' ' || '\U{0009}' <= c <= '\U{000D}' || c == '\U{0085}' || c == '\U{00A0}'
    || c == '\U{1680}' || '\U{2000}' <= c <= '\U{200A}' || c == '\U{2028}' || c == '\U{2029}'
    || c == '\U{202F}' || c == '\U{205F}' || c == '\U{3000}'
  }

  function TrimStart(s: string): (r: string)
    ensures |r| <= |s| && r == s[|s| - |r|..]
    ensures r != "" ==> !IsSpace(r[0])
    ensures forall k :: 0 <= k < |s| - |r| ==> IsSpace(s[k])
  {
    if s != "" && IsSpace(s[0]) then TrimStart(s[1..]) else s
  }

  function TrimEnd(s: string, drop: char -> bool): (r: string)
    ensures r <= s
    ensures r != "" ==> !drop(r[|r| - 1])
    ensures forall k :: |r| <= k < |s| ==> drop(s[k])
  {
    if s != "" && drop(s[|s| - 1]) then TrimEnd(s[..|s| - 1], drop) else s
  }

  function Trim(s: string): string {
    TrimEnd(TrimStart(s), IsSpace)
  }

  function TrimEndDots(s: string): string {
    TrimEnd(s, c => c == '.')
  }

  predicate Trimmed(s: string) {
    s == "" || (!IsSpace(s[0]) && !IsSpace(s[|s| - 1]))
  }

  /** `Trim` removes exactly the white space around a string, and a string is trimmed exactly when `Trim` keeps it. */
  lemma TrimIsProjection(s: string)
    ensures Trimmed(Trim(s)) && |Trim(s)| <= |s|
    ensures Trim(s) == s <==> Trimmed(s)
    ensures Trim(s) != s ==> |Trim(s)| < |s|
  {
    var t := TrimStart(s);
    assert |t| == |s| ==> t == s;
    assert |Trim(s)| == |t| ==> Trim(s) == t;
    if Trimmed(s) && s != "" {
      assert t == s;
    }
  }

  /** The `i`-th piece of `string.Split(sep)`. */
  function Split(s: string, sep: char): (parts: seq<string>)
    ensures |parts| >= 1
    ensures forall p | p in parts :: sep !in p
  {
    if s == "" then [""] else
      var rest := Split(s[1..], sep);
      if s[0] == sep then [""] + rest else [[s[0]] + rest[0]] + rest[1..]
  }

  function Join(parts: seq<string>, sep: char): string {
    if |parts| == 0 then "" else if |parts| == 1 then parts[0]
    else parts[0] + [sep] + Join(parts[1..], sep)
  }

  lemma {:induction false} JoinSplit(s: string, sep: char)
    ensures Join(Split(s, sep), sep) == s
  {
    if s != "" {
      var rest := Split(s[1..], sep);
      JoinSplit(s[1..], sep);
      if s[0] == sep {
        assert Split(s, sep)[1..] == rest;
        assert s == [sep] + s[1..];
      } else {
        var head := [s[0]] + rest[0];
        assert Split(s, sep) == [head] + rest[1..];
        if |rest| > 1 {
          assert ([head] + rest[1..])[1..] == rest[1..];
        }
        assert s == [s[0]] + s[1..];
      }
    }
  }

  lemma {:induction false} SplitPrefix(head: string, tail: string, sep: char)
    requires sep !in head
    ensures Split(head, sep) == [head]
    ensures Split(head + [sep] + tail, sep) == [head] + Split(tail, sep)
    decreases head
  {
    var s := head + [sep] + tail;
    if head == "" {
      assert s[1..] == tail;
    } else {
      SplitPrefix(head[1..], tail, sep);
      assert s[1..] == head[1..] + [sep] + tail;
      assert head == [head[0]] + head[1..];
    }
  }

  lemma {:induction false} SplitJoin(parts: seq<string>, sep: char)
    requires |parts| >= 1
    requires forall p | p in parts :: sep !in p
    ensures Split(Join(parts, sep), sep) == parts
  {
    if |parts| == 1 {
      SplitPrefix(parts[0], "", sep);
    } else {
      SplitPrefix(parts[0], Join(parts[1..], sep), sep);
      SplitJoin(parts[1..], sep);
    }
  }

  function AsciiUpper(c: char): char {
    if 'a' <= c <= 'z' then (c as int - 32) as char else c
  }

  /** Equality under a per-character fold. */
  predicate EqualFolded(a: string, b: string, fold: char -> char) {
    |a| == |b| && forall i | 0 <= i < |a| :: fold(a[i]) == fold(b[i])
  }

  /** SQLite's NOCASE collation folds ASCII letters only. */
  predicate EqualNoCase(a: string, b: string) {
    EqualFolded(a, b, AsciiUpper)
  }

  /**
   * What the rules take from the platform: `Uri.CheckHostName(s) == Dns`, which admits no white space,
   * and the upper-casing behind `StringComparison.OrdinalIgnoreCase`, which agrees with ASCII on ASCII.
   */
  datatype RawHostRules = HostRules(isDnsHost: string -> bool, upper: char -> char) {
    ghost predicate Valid() {
      && (forall s: string, i: int | isDnsHost(s) && 0 <= i < |s| :: !IsSpace(s[i]))
      && (forall c: char {:trigger upper(c)} :: upper(c) == upper(AsciiUpper(c)))
    }

    predicate EqualIgnoreCase(a: string, b: string) {
      EqualFolded(a, b, upper)
    }
  }

  type HostRules = r: RawHostRules | r.Valid() witness HostRules(s => false, AsciiUpper)

  /** Any two names SQLite's unique index would call equal are equal to `OrdinalIgnoreCase` as well. */
  lemma NoCaseImpliesIgnoreCase(rules: HostRules, a: string, b: string)
    requires EqualNoCase(a, b)
    ensures rules.EqualIgnoreCase(a, b)
  {
    forall i | 0 <= i < |a| ensures rules.upper(a[i]) == rules.upper(b[i]) {
      assert rules.upper(a[i]) == rules.upper(AsciiUpper(a[i]));
      assert rules.upper(b[i]) == rules.upper(AsciiUpper(b[i]));
    }
  }
}
