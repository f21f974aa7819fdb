/** Names in the offline queue directory: queue entries, claims, and the reversible map between them. */
module QueueNames {
  import opened Text
  import opened Sorting

  predicate IsHex(c: char)
  {
    '0' <= c <= '9' || 'a' <= c <= 'f'
  }

  /** Twenty digits of nanoseconds, a dash, and thirty-two lower-case hexadecimal digits. */
  predicate IsStem(s: string)
  {
    && |s| == 53
    && AllDigits(s[..20])
    && s[20] == '-'
    && (forall i :: 21 <= i < 53 ==> IsHex(s[i]))
  }

  predicate IsQueueName(s: string)
  {
    |s| == 58 && IsStem(s[..53]) && s[53..] == ".json"
  }

  predicate IsClaimName(s: string)
  {
    |s| == 57 && s[..2] == ".c" && IsStem(s[2..55]) && s[55..] == ".s"
  }

  /** The name `_cache_offline` builds from a clock reading and a random nonce. */
  function QueueName(timestamp: nat, nonce: string): string
  {
    Pad(20, timestamp) + "-" + nonce + ".json"
  }

  predicate IsNonce(nonce: string)
  {
    |nonce| == 32 && forall i :: 0 <= i < 32 ==> IsHex(nonce[i])
  }

  function ToClaim(q: string): string
    requires IsQueueName(q)
  {
    ".c" + q[..53] + ".s"
  }

  function ToQueue(c: string): string
    requires IsClaimName(c)
  {
    c[2..55] + ".json"
  }

  lemma QueueNameMatches(timestamp: nat, nonce: string)
    requires IsNonce(nonce)
    ensures IsQueueName(QueueName(timestamp, nonce))
  {
    var s := QueueName(timestamp, nonce);
    assert s[..20] == Pad(20, timestamp) && s[20] == '-' && s[53..] == ".json";
    assert s[..53][..20] == Pad(20, timestamp);
    forall i | 21 <= i < 53
      ensures IsHex(s[i])
    {
      assert s[i] == nonce[i - 21];
    }
  }

  /** Claiming a queue name and undoing the claim are inverse to each other. */
  lemma ClaimRoundTrip(q: string)
    requires IsQueueName(q)
    ensures IsClaimName(ToClaim(q)) && ToQueue(ToClaim(q)) == q
  {
    var c := ToClaim(q);
    assert c[..2] == ".c" && c[2..55] == q[..53] && c[55..] == ".s";
    assert q == q[..53] + q[53..];
  }

  lemma QueueRoundTrip(c: string)
    requires IsClaimName(c)
    ensures IsQueueName(ToQueue(c)) && ToClaim(ToQueue(c)) == c
  {
    var q := ToQueue(c);
    assert q[..53] == c[2..55] && q[53..] == ".json";
    assert c == c[..2] + c[2..55] + c[55..];
  }

  lemma NamesDisjoint(s: string)
    ensures !(IsQueueName(s) && IsClaimName(s))
  {
  }

  /** Sorting by name is sorting by time of caching, nonces deciding only between equal clock readings. */
  lemma QueueNameOrder(t1: nat, n1: string, t2: nat, n2: string)
    requires t1 < Pow10(20) && t2 < Pow10(20) && IsNonce(n1) && IsNonce(n2)
    ensures LexLess(QueueName(t1, n1), QueueName(t2, n2)) <==> t1 < t2 || (t1 == t2 && LexLess(n1, n2))
  {
    PadOrder(20, t1, t2);
    NestRight(Pad(20, t1), n1);
    NestRight(Pad(20, t2), n2);
    LexAppend(Pad(20, t1), Pad(20, t2), "-" + (n1 + ".json"), "-" + (n2 + ".json"));
    LexPrefix("-", n1 + ".json", n2 + ".json");
    LexAppend(n1, n2, ".json", ".json");
    LexIrreflexive(".json");
  }

  lemma NestRight(p: string, n: string)
    ensures p + "-" + n + ".json" == p + ("-" + (n + ".json"))
  {
  }

  /** Claims sort exactly as the entries they came from. */
  lemma ClaimOrder(a: string, b: string)
    requires IsQueueName(a) && IsQueueName(b)
    ensures LexLess(ToClaim(a), ToClaim(b)) <==> LexLess(a, b)
  {
    var (p, q) := (a[..53], b[..53]);
    assert a == p + ".json" && b == q + ".json";
    assert ToClaim(a) == ".c" + (p + ".s") && ToClaim(b) == ".c" + (q + ".s");
    LexPrefix(".c", p + ".s", q + ".s");
    LexAppend(p, q, ".s", ".s");
    LexAppend(p, q, ".json", ".json");
    LexIrreflexive(".s");
    LexIrreflexive(".json");
  }

  /** Names in strictly increasing order. */
  ghost predicate Increasing(s: seq<string>)
  {
    forall i, j :: 0 <= i < j < |s| ==> LexLess(s[i], s[j])
  }

  // ---------- Stems: what an entry and its claim have in common ----------

  function Stem(timestamp: nat, nonce: string): string
  {
    Pad(20, timestamp) + "-" + nonce
  }

  function EntryName(stem: string): string
  {
    stem + ".json"
  }

  function ClaimName(stem: string): string
  {
    ".c" + stem + ".s"
  }

  function Timestamp(stem: string): nat
    requires IsStem(stem)
  {
    ParseNat(stem[..20])
  }

  function Nonce(stem: string): string
    requires IsStem(stem)
  {
    stem[21..]
  }

  /** Cached at an earlier clock reading, or at the same one with a smaller nonce. */
  predicate Earlier(a: string, b: string)
    requires IsStem(a) && IsStem(b)
  {
    Timestamp(a) < Timestamp(b) || (Timestamp(a) == Timestamp(b) && LexLess(Nonce(a), Nonce(b)))
  }

  /** The stem built from a clock reading and a nonce has them as its parts, and the entry its name. */
  lemma StemParts(timestamp: nat, nonce: string)
    requires timestamp < Pow10(20) && IsNonce(nonce)
    ensures IsStem(Stem(timestamp, nonce)) && EntryName(Stem(timestamp, nonce)) == QueueName(timestamp, nonce)
    ensures Timestamp(Stem(timestamp, nonce)) == timestamp && Nonce(Stem(timestamp, nonce)) == nonce
  {
    var s := Stem(timestamp, nonce);
    QueueNameMatches(timestamp, nonce);
    assert QueueName(timestamp, nonce)[..53] == s && s[..20] == Pad(20, timestamp) && s[21..] == nonce;
    ParsePad(20, timestamp);
  }

  /** Every stem is built that way. */
  lemma StemFromParts(s: string)
    requires IsStem(s)
    ensures Timestamp(s) < Pow10(20) && IsNonce(Nonce(s)) && s == Stem(Timestamp(s), Nonce(s))
  {
    PadParse(s[..20]);
    assert s == s[..20] + "-" + s[21..];
  }

  /** Stems, entry names and claim names all sort by time of caching. */
  lemma StemOrder(a: string, b: string)
    requires IsStem(a) && IsStem(b)
    ensures LexLess(a, b) <==> Earlier(a, b)
    ensures LexLess(EntryName(a), EntryName(b)) <==> LexLess(a, b)
    ensures LexLess(ClaimName(a), ClaimName(b)) <==> LexLess(a, b)
  {
    StemFromParts(a);
    StemFromParts(b);
    QueueNameOrder(Timestamp(a), Nonce(a), Timestamp(b), Nonce(b));
    LexAppend(a, b, ".json", ".json");
    LexIrreflexive(".json");
    NameForms(a);
    NameForms(b);
    ClaimOrder(EntryName(a), EntryName(b));
  }

  /** The two names of a stem are well-formed, and lead to each other. */
  lemma NameForms(s: string)
    requires IsStem(s)
    ensures IsQueueName(EntryName(s)) && EntryName(s)[..53] == s && ToClaim(EntryName(s)) == ClaimName(s)
    ensures IsClaimName(ClaimName(s)) && ClaimName(s)[2..55] == s && ToQueue(ClaimName(s)) == EntryName(s)
  {
    var (q, c) := (EntryName(s), ClaimName(s));
    assert q[..53] == s && q[53..] == ".json";
    ClaimRoundTrip(q);
    assert ToClaim(q) == c;
    assert c[2..55] == s;
  }

  /** `os.scandir` yields the names in no particular order; `sorted` puts them in name order. */
  method ListSorted(names: set<string>) returns (s: seq<string>)
    ensures Increasing(s)
    ensures forall n :: n in s <==> n in names
  {
    var found := Enumerate(names);
    s := Sort(found, LexLess);
    LexStrictWeak();
    SortSorted(found, LexLess);
    SortPermutes(found, LexLess);
    SameMembers(s, found);
    DistinctPermutes(found, s);
    forall i, j | 0 <= i < j < |s|
      ensures LexLess(s[i], s[j])
    {
      LexTotal(s[i], s[j]);
    }
  }
}
