/** `MacAddress.Normalize`. */
module MacAddress {
  import opened Prelude
  import opened Text

  datatype MacError = MixedSeparators | WrongLength | NotHexadecimal

  predicate IsHexDigit(c: char) {
    '0' <= c <= '9' || 'a' <= c <= 'f' || 'A' <= c <= 'F'
  }

  predicate AllHex(s: string) {
    forall i | 0 <= i < |s| :: IsHexDigit(s[i])
  }

  function HexValue(c: char): (v: int)
    requires IsHexDigit(c)
    ensures 0 <= v < 16
  {
    if c <= '9' then c as int - '0' as int
    else if c <= 'F' then c as int - 'A' as int + 10
    else c as int - 'a' as int + 10
  }

  function Upper(s: string): (r: string)
    ensures |r| == |s|
  {
    seq(|s|, i requires 0 <= i < |s| => AsciiUpper(s[i]))
  }

  /** `text.Replace(separator, "")`. */
  function Remove(s: string, separator: char): string {
    if s == "" then "" else (if s[0] == separator then "" else [s[0]]) + Remove(s[1..], separator)
  }

  /** Pairs of characters joined by colons. */
  function Colons(compact: string): string {
    if |compact| <= 2 then compact else compact[..2] + ":" + Colons(compact[2..])
  }

  function Normalize(value: string): Result<string, MacError> {
    var text := Trim(value);
    if |text| == 12 then FromCompact(text)
    else if |text| == 17 && (text[2] == ':' || text[2] == '-') then
      if exists i | i in [2, 5, 8, 11, 14] :: text[i] != text[2] then Err(MixedSeparators)
      else FromCompact(Remove(text, text[2]))
    else Err(WrongLength)
  }

  function FromCompact(compact: string): Result<string, MacError> {
    if |compact| != 12 || !AllHex(compact) then Err(NotHexadecimal) else Ok(Colons(Upper(compact)))
  }

  /** Twelve upper-case hexadecimal digits, two by two, between colons. */
  predicate Normal(mac: string) {
    && |mac| == 17
    && (forall i | 0 <= i < 17 :: if i % 3 == 2 then mac[i] == ':' else IsHexDigit(mac[i]) && AsciiUpper(mac[i]) == mac[i])
  }

  lemma {:induction false} ColonsAt(compact: string)
    requires |compact| % 2 == 0 && |compact| > 0
    ensures |Colons(compact)| == |compact| / 2 * 3 - 1
    ensures forall i | 0 <= i < |Colons(compact)| ::
              if i % 3 == 2 then Colons(compact)[i] == ':'
              else 0 <= i / 3 * 2 + i % 3 < |compact| && Colons(compact)[i] == compact[i / 3 * 2 + i % 3]
  {
    if |compact| > 2 {
      var rest := compact[2..];
      ColonsAt(rest);
      forall i | 3 <= i < |Colons(compact)| ensures Colons(compact)[i] == Colons(rest)[i - 3] {
      }
      forall i | 0 <= i < |Colons(compact)|
        ensures if i % 3 == 2 then Colons(compact)[i] == ':'
                else 0 <= i / 3 * 2 + i % 3 < |compact| && Colons(compact)[i] == compact[i / 3 * 2 + i % 3]
      {
        if i >= 3 {
          assert (i - 3) % 3 == i % 3 && (i - 3) / 3 == i / 3 - 1;
        }
      }
    }
  }

  lemma {:induction false} RemoveColons(compact: string)
    requires ':' !in compact
    ensures Remove(Colons(compact), ':') == compact
  {
    hide Remove;
    if |compact| <= 2 {
      RemoveAppend(compact, "", ':');
      RemoveFirst("", ':');
      assert compact + "" == compact;
    } else {
      var rest := Colons(compact[2..]);
      RemoveColons(compact[2..]);
      RemoveAppend(compact[..2], ":" + rest, ':');
      RemoveFirst(":" + rest, ':');
      assert Colons(compact) == compact[..2] + (":" + rest);
      assert (":" + rest)[1..] == rest;
    }
  }

  lemma RemoveFirst(s: string, separator: char)
    ensures s == "" ==> Remove(s, separator) == ""
    ensures s != "" && s[0] == separator ==> Remove(s, separator) == Remove(s[1..], separator)
  {
  }

  lemma {:induction false} RemoveAppend(a: string, b: string, separator: char)
    requires separator !in a
    ensures Remove(a + b, separator) == a + Remove(b, separator)
  {
    if a == "" {
      assert a + b == b;
    } else {
      RemoveAppend(a[1..], b, separator);
      assert (a + b)[1..] == a[1..] + b;
    }
  }

  /** Whatever is accepted comes out in normal form. */
  lemma NormalizeIsNormal(value: string)
    ensures Normalize(value).Ok? ==> Normal(Normalize(value).value)
  {
    if Normalize(value).Ok? {
      var text := Trim(value);
      var compact := if |text| == 12 then text else Remove(text, text[2]);
      ColonsAt(Upper(compact));
    }
  }

  /** Twelve digits with the same separator, a colon or a hyphen, after each pair. */
  predicate Separated(text: string) {
    && |text| == 17 && (text[2] == ':' || text[2] == '-')
    && forall i | 0 <= i < 17 :: if i % 3 == 2 then text[i] == text[2] else IsHexDigit(text[i])
  }

  /** The six pairs without what is between them. */
  function Pairs(text: string): (r: string)
    requires |text| == 17
    ensures |r| == 12
  {
    seq(12, j requires 0 <= j < 12 => text[j / 2 * 3 + j % 2])
  }

  lemma {:induction false} RemoveSplits(a: string, b: string, separator: char)
    ensures Remove(a + b, separator) == Remove(a, separator) + Remove(b, separator)
  {
    hide Remove;
    if a == "" {
      RemoveFirst(a, separator);
      assert a + b == b;
    } else {
      RemoveSplits(a[1..], b, separator);
      assert (a + b)[1..] == a[1..] + b;
      RemoveOne(a, separator);
      RemoveOne(a + b, separator);
      var first := if a[0] == separator then "" else [a[0]];
      assert first + (Remove(a[1..], separator) + Remove(b, separator)) == Remove(a, separator) + Remove(b, separator);
    }
  }

  lemma RemoveOne(s: string, separator: char)
    requires s != ""
    ensures Remove(s, separator) == (if s[0] == separator then "" else [s[0]]) + Remove(s[1..], separator)
  {
  }

  lemma SplitTail(s: string, k: nat)
    requires k + 2 <= |s|
    ensures s[k..] == s[k..k + 2] + s[k + 2..]
  {
  }

  lemma RemoveFromPair(pair: string, separator: char)
    requires |pair| == 2
    ensures |Remove(pair, separator)| <= 2
    ensures |Remove(pair, separator)| == 2 <==> separator !in pair
    ensures separator !in pair ==> Remove(pair, separator) == pair
  {
    var rest := pair[1..];
    assert rest == [pair[1]] && rest[1..] == "" && pair == [pair[0], pair[1]];
    assert Remove(rest, separator) == if pair[1] == separator then "" else [pair[1]];
  }

  /** The separators go, and the pairs stay whole exactly when there are as many characters left as in the pairs. */
  lemma {:induction false} RemoveSeparators(text: string, i: nat)
    requires |text| == 17 && i <= 5 && forall k | k in [2, 5, 8, 11, 14] :: text[k] == text[2]
    ensures var r := Remove(text[3 * i..], text[2]);
            var pairs := Pairs(text)[2 * i..];
            && |r| <= 12 - 2 * i && (|r| == 12 - 2 * i <==> text[2] !in pairs)
            && (text[2] !in pairs ==> r == pairs)
    decreases 5 - i
  {
    hide Remove, Pairs;
    var c, pair, all := text[2], text[3 * i..3 * i + 2], Pairs(text);
    RemoveFromPair(pair, c);
    PairAt(text, i);
    if i == 5 {
      assert pair == text[3 * i..] && all[2 * i..] == all[2 * i..2 * i + 2];
    } else {
      var rest := text[3 * i + 2..];
      assert text[3 * i..] == pair + rest && rest[0] == text[3 * i + 2] && rest[1..] == text[3 * (i + 1)..];
      assert 3 * i + 2 in [2, 5, 8, 11, 14];
      RemoveSplits(pair, rest, c);
      RemoveFirst(rest, c);
      RemoveSeparators(text, i + 1);
      SplitTail(all, 2 * i);
    }
  }

  lemma PairAt(text: string, i: nat)
    requires |text| == 17 && i <= 5
    ensures Pairs(text)[2 * i..2 * i + 2] == text[3 * i..3 * i + 2]
  {
    assert 2 * i / 2 == i && (2 * i + 1) / 2 == i;
  }

  lemma PairsAreDigits(text: string)
    requires |text| == 17
    ensures AllHex(Pairs(text)) <==> forall i | 0 <= i < 17 && i % 3 != 2 :: IsHexDigit(text[i])
    ensures forall i | 0 <= i < 17 && i % 3 != 2 :: Pairs(text)[i / 3 * 2 + i % 3] == text[i]
  {
    forall i | 0 <= i < 17 && i % 3 != 2 ensures Pairs(text)[i / 3 * 2 + i % 3] == text[i] {
      var j := i / 3 * 2 + i % 3;
      assert j / 2 == i / 3 && j % 2 == i % 3;
    }
    forall j | 0 <= j < 12 ensures (j / 2 * 3 + j % 2) % 3 != 2 {
    }
  }

  /**
   * Accepted are, between white space, exactly twelve hexadecimal digits, or twelve with the same separator after each pair; and
   * the result has these very digits in their order, in upper case.
   */
  lemma AcceptsExactlyTheForms(value: string)
    ensures var text := Trim(value);
            && (Normalize(value).Ok? <==> (|text| == 12 && AllHex(text)) || Separated(text))
            && (Normalize(value).Ok? ==>
                  var mac := Normalize(value).value;
                  |mac| == 17
                  && forall i | 0 <= i < 17 && i % 3 != 2 ::
                       mac[i] == AsciiUpper(if |text| == 12 then text[i / 3 * 2 + i % 3] else text[i]))
  {
    hide Trim, Remove, Colons, Upper, AllHex;
    var text := Trim(value);
    if |text| == 17 && (text[2] == ':' || text[2] == '-') && forall i | i in [2, 5, 8, 11, 14] :: text[i] == text[2] {
      SeparatedForm(value, text);
    } else {
      NotSeparated(text);
      if |text| == 12 {
        UpperColons(text);
      }
    }
  }

  lemma NotSeparated(text: string)
    requires !(|text| == 17 && (text[2] == ':' || text[2] == '-') && forall i | i in [2, 5, 8, 11, 14] :: text[i] == text[2])
    ensures !Separated(text)
  {
    assert forall i | i in [2, 5, 8, 11, 14] :: i % 3 == 2;
  }

  lemma SeparatorsAt(i: int)
    requires 0 <= i < 17 && i % 3 == 2
    ensures i in [2, 5, 8, 11, 14]
  {
  }

  lemma SeparatedForm(value: string, text: string)
    requires text == Trim(value) && |text| == 17 && (text[2] == ':' || text[2] == '-')
    requires forall i | i in [2, 5, 8, 11, 14] :: text[i] == text[2]
    ensures Normalize(value).Ok? <==> Separated(text)
    ensures Normalize(value).Ok? ==>
              var mac := Normalize(value).value;
              |mac| == 17 && forall i | 0 <= i < 17 && i % 3 != 2 :: mac[i] == AsciiUpper(text[i])
  {
    hide Trim, Remove, Pairs, AllHex, Colons, Upper;
    var pairs := Pairs(text);
    assert text[0..] == text && Pairs(text)[0..] == pairs;
    RemoveSeparators(text, 0);
    PairsAreDigits(text);
    forall i | 0 <= i < 17 && i % 3 == 2 ensures text[i] == text[2] {
      SeparatorsAt(i);
    }
    HexIsNoSeparator(pairs, text[2]);
    if AllHex(pairs) {
      UpperColons(pairs);
    }
  }

  lemma HexIsNoSeparator(pairs: string, c: char)
    requires c == ':' || c == '-'
    ensures AllHex(pairs) ==> c !in pairs
  {
  }

  lemma UpperColons(compact: string)
    requires |compact| == 12
    ensures var mac := Colons(Upper(compact));
            |mac| == 17 && forall i | 0 <= i < 17 && i % 3 != 2 :: mac[i] == AsciiUpper(compact[i / 3 * 2 + i % 3])
  {
    ColonsAt(Upper(compact));
  }

  lemma WithoutColons(mac: string) returns (compact: string)
    requires Normal(mac)
    ensures |compact| == 12 && AllHex(compact) && Upper(compact) == compact && ':' !in compact
    ensures Colons(compact) == mac
  {
    compact := seq(12, j requires 0 <= j < 12 => mac[j / 2 * 3 + j % 2]);
    forall j | 0 <= j < 12 ensures IsHexDigit(compact[j]) && AsciiUpper(compact[j]) == compact[j] {
      assert (j / 2 * 3 + j % 2) % 3 == j % 2;
    }
    ColonsAt(compact);
    forall i | 0 <= i < 17 ensures Colons(compact)[i] == mac[i] {
      if i % 3 != 2 {
        var j := i / 3 * 2 + i % 3;
        assert j / 2 == i / 3 && j % 2 == i % 3;
      }
    }
  }

  /** A MAC address in normal form is kept, so normalisation is idempotent. */
  lemma NormalIsFixpoint(mac: string)
    requires Normal(mac)
    ensures Normalize(mac) == Ok(mac)
  {
    var compact := WithoutColons(mac);
    RemoveColons(compact);
    assert Trimmed(mac) by {
      assert IsHexDigit(mac[0]) && IsHexDigit(mac[16]);
    }
    TrimIsProjection(mac);
    assert mac[2] == ':' && mac[5] == ':' && mac[8] == ':' && mac[11] == ':' && mac[14] == ':';
  }

  /** The low bit of the first byte marks a group address. */
  predicate IsMulticast(mac: string)
    requires Normal(mac)
  {
    HexValue(mac[1]) % 2 != 0
  }

  predicate IsZero(mac: string)
    requires Normal(mac)
  {
    forall i | 0 <= i < 17 :: i % 3 != 2 ==> HexValue(mac[i]) == 0
  }
}
