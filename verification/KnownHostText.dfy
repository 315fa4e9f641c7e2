/** How `KnownHostsStore` writes endpoints and what `ReadAsync` demands of each entry. */
module KnownHostText {
  import opened Prelude
  import opened Text
  import opened KnownHosts

  predicate Blank(text: string) {
    forall i | 0 <= i < |text| :: IsSpace(text[i])
  }

  /** What the platform computes: lower-casing, which keeps white space and dots apart, and a key's fingerprint text. */
  datatype RawTextRules = TextRules(lower: char -> char, fingerprint: Key -> string) {
    ghost predicate Valid() {
      && (forall c: char {:trigger lower(lower(c))} :: lower(lower(c)) == lower(c))
      && (forall c: char {:trigger lower(c)} :: (IsSpace(lower(c)) <==> IsSpace(c)) && (lower(c) == '.' <==> c == '.'))
      && (forall k: Key {:trigger fingerprint(k)} :: !Blank(fingerprint(k)))
    }
  }

  type TextRules = r: RawTextRules | r.Valid() witness PlainRules()

  function PlainRules(): (r: RawTextRules)
    ensures r.Valid()
  {
    assert !IsSpace("SHA256:"[0]);
    TextRules(c => c, k => "SHA256:")
  }

  function Lower(text: TextRules, s: string): (r: string)
    ensures |r| == |s|
  {
    seq(|s|, i requires 0 <= i < |s| => text.lower(s[i]))
  }

  /** The endpoint text without outer white space and final dots. */
  function Bare(host: string): string {
    TrimEndDots(Trim(host))
  }

  /** The test of `ReadAsync`. */
  predicate Accepts(text: TextRules, e: KnownHost) {
    && !Blank(e.host) && !Blank(e.algorithm) && e.publicKey != [] && !Blank(e.fingerprint)
    && e.host == Lower(text, Bare(e.host)) && e.fingerprint == text.fingerprint(e.publicKey)
    && 1 <= e.port <= 65535
  }

  /** The rules of the store. */
  function Platform(text: TextRules): IdentityRules {
    Raw(text)
  }

  function Raw(text: TextRules): RawIdentityRules {
    IdentityRules(h => Lower(text, Bare(h)), text.fingerprint, e => Accepts(text, e))
  }

  lemma PlatformApplies(text: TextRules, e: KnownHost)
    ensures Platform(text).readable(e) == Accepts(text, e)
    ensures Platform(text).fingerprint == text.fingerprint
    ensures Platform(text).endpoint(e.host) == Lower(text, Bare(e.host))
  {
    hide Lower, Bare, Accepts;
  }

  /** The store's record of an endpoint. */
  function Recorded(text: TextRules, host: string, port: int, algorithm: string, key: Key): KnownHost {
    Identify(Platform(text), host, port, algorithm, key)
  }

  /** What it takes to be read back: present parts, and no white space left once the final dots are gone. */
  predicate Storable(host: string, port: int, algorithm: string, key: Key) {
    Trimmed(Bare(host)) && Bare(host) != "" && !Blank(algorithm) && key != [] && 1 <= port <= 65535
  }

  lemma LowerKeeps(text: TextRules, s: string)
    ensures Lower(text, Lower(text, s)) == Lower(text, s)
    ensures Trimmed(Lower(text, s)) <==> Trimmed(s)
    ensures Blank(Lower(text, s)) <==> Blank(s)
    ensures s != "" ==> (Lower(text, s)[|s| - 1] == '.' <==> s[|s| - 1] == '.')
  {
    var t := Lower(text, s);
    assert forall i | 0 <= i < |s| :: t[i] == text.lower(s[i]);
  }

  lemma BareKeeps(text: TextRules, t: string)
    requires t != "" ==> t[|t| - 1] != '.'
    ensures if Trimmed(t) then Bare(Lower(text, t)) == Lower(text, t) else |Bare(Lower(text, t))| < |t|
  {
    hide Lower, Trimmed, Trim;
    var h := Lower(text, t);
    LowerKeeps(text, t);
    TrimIsProjection(h);
    if Trimmed(t) {
      assert TrimEndDots(h) == h;
    } else {
      assert |Bare(h)| <= |Trim(h)| < |h|;
    }
  }

  /** The store can read back its record of an endpoint exactly when that is storable. */
  lemma IdentifiedIsReadable(text: TextRules, host: string, port: int, algorithm: string, key: Key)
    ensures Platform(text).readable(Recorded(text, host, port, algorithm, key)) <==> Storable(host, port, algorithm, key)
  {
    hide Lower, Bare, Platform;
    var t := Bare(host);
    PlatformApplies(text, Recorded(text, host, port, algorithm, key));
    PlatformApplies(text, KnownHost(host, port, algorithm, key, ""));
    LowerKeeps(text, t);
    BareEnds(host);
    BareKeeps(text, t);
  }

  lemma BareEnds(host: string)
    ensures Bare(host) != "" ==> Bare(host)[|Bare(host)| - 1] != '.'
  {
  }

  /**
   * After a successful trust of an endpoint, the next read of a file that was readable fails exactly when the endpoint is
   * not storable: the store then refuses what it wrote itself, and with it everything else in the file.
   */
  lemma TrustPoisonsFileIff(
    text: TextRules, entries: seq<KnownHost>, host: string, port: int, algorithm: string, key: Key)
    requires AllReadable(Platform(text), entries) && Trust(entries, Recorded(text, host, port, algorithm, key)).Ok?
    ensures AllReadable(Platform(text), Trust(entries, Recorded(text, host, port, algorithm, key)).value)
            <==> Storable(host, port, algorithm, key)
  {
    hide Platform, Storable, AllReadable, Trust;
    TrustedIsReadableIff(Platform(text), entries, Recorded(text, host, port, algorithm, key));
    IdentifiedIsReadable(text, host, port, algorithm, key);
  }

  /** One such endpoint ends in a space and a dot; trusting it for the first time makes any readable file unreadable. */
  lemma SpaceBeforeDotIsNotStorable(
    text: TextRules, entries: seq<KnownHost>, host: string, port: int, algorithm: string, key: Key)
    requires host == "nas ."
    requires AllReadable(Platform(text), entries) && Trust(entries, Recorded(text, host, port, algorithm, key)).Ok?
    ensures !AllReadable(Platform(text), Trust(entries, Recorded(text, host, port, algorithm, key)).value)
  {
    hide Platform, AllReadable, Trust, Recorded;
    TrustPoisonsFileIff(text, entries, host, port, algorithm, key);
    NasKeepsItsSpace(host);
  }

  lemma NasKeepsItsSpace(host: string)
    requires host == "nas ."
    ensures Bare(host) == "nas " && !Trimmed(Bare(host))
  {
    TrimIsProjection(host);
    hide Trim;
    assert Trim(host) == host;
    var bare := TrimEndDots(host);
    assert host[3] == ' ' && host[4] == '.';
    assert |bare| == 4 && bare == host[..4];
    assert host[..4] == "nas ";
  }
}
