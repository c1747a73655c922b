// The key strings of the vote store, and that keys of different polls, shards,
// voters and purposes never coincide.
module Keys {

  function Digit(d: nat): char
    requires d < 10
  {
    "0123456789"[d]
  }

  // The decimal rendering of a shard number.
  function Itoa(n: nat): string {
    if n < 10 then [Digit(n)] else Itoa(n / 10) + [Digit(n % 10)]
  }

  function TagForShard(pollID: string, shard: nat): string {
    "{v:" + pollID + ":" + Itoa(shard) + "}"
  }

  function VotedKey(pollID: string, shard: nat, voter: string): string {
    TagForShard(pollID, shard) + ":voted:" + voter
  }

  function CountsKey(pollID: string, shard: nat): string {
    TagForShard(pollID, shard) + ":counts"
  }

  function RateKey(ip: string): string { "{ip:" + ip + "}:rl" }

  function QuotaKey(ip: string, pollID: string): string { "{ip:" + ip + "}:pq:" + pollID }

  // Canonical poll ids are UUIDs in their plain form: no colon and no zero
  // character in them.
  predicate Canonical(pollID: string) { ':' !in pollID && '\0' !in pollID }

  lemma {:induction false} ItoaDigits(n: nat)
    ensures Itoa(n) != [] && forall c :: c in Itoa(n) ==> '0' <= c <= '9'
  {
    if n >= 10 { ItoaDigits(n / 10); }
  }

  lemma {:induction false} ItoaInjective(a: nat, b: nat)
    requires Itoa(a) == Itoa(b)
    ensures a == b
  {
    ItoaDigits(a / 10);
    ItoaDigits(b / 10);
    var s := Itoa(a);
    assert s[|s| - 1] == Digit(a % 10) == Digit(b % 10);
    if a >= 10 && b >= 10 {
      assert s[..|s| - 1] == Itoa(a / 10) == Itoa(b / 10);
      ItoaInjective(a / 10, b / 10);
    }
  }

  // Two strings split at the first occurrence of the same separator.
  lemma {:induction false} SplitAtFirst(a: string, b: string, a': string, b': string, sep: char)
    requires a + [sep] + b == a' + [sep] + b' && sep !in a && sep !in a'
    ensures a == a' && b == b'
  {
    var s := a + [sep] + b;
    assert s[|a|] == sep && s[|a'|] == sep;
    assert forall i :: 0 <= i < |a| ==> s[i] == a[i] && s[i] != sep;
    assert forall i :: 0 <= i < |a'| ==> s[i] == a'[i] && s[i] != sep;
    assert a == s[..|a|] && a' == s[..|a'|];
    assert b == s[|a| + 1..] && b' == s[|a'| + 1..];
  }

  // A key under a shard's tag determines the poll, the shard and the rest.
  lemma TagInjective(p: string, k: nat, rest: string, p': string, k': nat, rest': string)
    requires Canonical(p) && Canonical(p')
    requires TagForShard(p, k) + rest == TagForShard(p', k') + rest'
    ensures p == p' && k == k' && rest == rest'
  {
    var tail, tail' := Itoa(k) + "}" + rest, Itoa(k') + "}" + rest';
    var s := TagForShard(p, k) + rest;
    assert s == "{v:" + (p + ":" + tail);
    assert s == "{v:" + (p' + ":" + tail');
    assert s[3..] == p + ":" + tail && s[3..] == p' + ":" + tail';
    SplitAtFirst(p, tail, p', tail', ':');
    ItoaDigits(k);
    ItoaDigits(k');
    SplitAtFirst(Itoa(k), rest, Itoa(k'), rest', '}');
    ItoaInjective(k, k');
  }

  lemma VotedKeyInjective(p: string, k: nat, v: string, p': string, k': nat, v': string)
    requires Canonical(p) && Canonical(p') && VotedKey(p, k, v) == VotedKey(p', k', v')
    ensures p == p' && k == k' && v == v'
  {
    var prefix := ":voted:";
    assert VotedKey(p, k, v) == TagForShard(p, k) + (prefix + v);
    assert VotedKey(p', k', v') == TagForShard(p', k') + (prefix + v');
    TagInjective(p, k, prefix + v, p', k', prefix + v');
    assert (prefix + v)[7..] == v && (prefix + v')[7..] == v';
  }

  lemma CountsKeyInjective(p: string, k: nat, p': string, k': nat)
    requires Canonical(p) && Canonical(p') && CountsKey(p, k) == CountsKey(p', k')
    ensures p == p' && k == k'
  {
    TagInjective(p, k, ":counts", p', k', ":counts");
  }

  // Guard keys are none of the ballot keys, and rate and quota keys differ.
  lemma GuardKeysApart(ip: string, pollID: string, p: string, k: nat, v: string)
    ensures RateKey(ip) != QuotaKey(ip, pollID)
    ensures RateKey(ip) != VotedKey(p, k, v) && QuotaKey(ip, pollID) != VotedKey(p, k, v)
  {
    var n := |"{ip:" + ip + "}"|;
    assert RateKey(ip)[n + 1] == 'r' && QuotaKey(ip, pollID)[n + 1] == 'p';
    assert RateKey(ip)[1] == 'i' && QuotaKey(ip, pollID)[1] == 'i' && VotedKey(p, k, v)[1] == 'v';
  }

  // What VoterHash digests: the poll id, a zero character and the voter token.
  function VoterPreimage(pollID: string, token: string): string { pollID + ['\0'] + token }

  // Different voters of a poll, and one voter in different polls, are digested
  // from different texts.
  lemma VoterPreimageInjective(p: string, token: string, p': string, token': string)
    requires '\0' !in p && '\0' !in p' && VoterPreimage(p, token) == VoterPreimage(p', token')
    ensures p == p' && token == token'
  {
    SplitAtFirst(p, token, p', token', '\0');
  }

  // The address of a client, rendered: no closing brace in it.
  predicate Address(ip: string) { '}' !in ip }

  predicate Hex(c: char) { '0' <= c <= '9' || 'a' <= c <= 'f' }

  // UUIDs and numeric addresses are rendered in such characters only.
  lemma Rendered(pollID: string, ip: string)
    ensures (forall c :: c in pollID ==> Hex(c) || c == '-') ==> Canonical(pollID)
    ensures (forall c :: c in ip ==> Hex(c) || c == '.' || c == ':') ==> Address(ip)
  {
  }

  // Each guard key determines the address, and a quota key the poll as well; no
  // rate key is a quota key.
  lemma GuardKeysInjective(ip: string, p: string, ip': string, p': string)
    requires Address(ip) && Address(ip')
    ensures RateKey(ip) == RateKey(ip') ==> ip == ip'
    ensures QuotaKey(ip, p) == QuotaKey(ip', p') ==> ip == ip' && p == p'
    ensures RateKey(ip) != QuotaKey(ip', p')
  {
    GuardTail(ip, ":rl");
    GuardTail(ip', ":rl");
    GuardTail(ip, ":pq:" + p);
    GuardTail(ip', ":pq:" + p');
    assert RateKey(ip) == "{ip:" + ip + "}" + ":rl" && RateKey(ip') == "{ip:" + ip' + "}" + ":rl";
    assert QuotaKey(ip, p) == "{ip:" + ip + "}" + (":pq:" + p);
    assert QuotaKey(ip', p') == "{ip:" + ip' + "}" + (":pq:" + p');
    assert ":rl"[1] == 'r' && (":pq:" + p')[1] == 'p';
    if RateKey(ip) == RateKey(ip') { SplitAtFirst(ip, ":rl", ip', ":rl", '}'); }
    if QuotaKey(ip, p) == QuotaKey(ip', p') {
      SplitAtFirst(ip, ":pq:" + p, ip', ":pq:" + p', '}');
      assert (":pq:" + p)[4..] == p && (":pq:" + p')[4..] == p';
    }
    if RateKey(ip) == QuotaKey(ip', p') {
      SplitAtFirst(ip, ":rl", ip', ":pq:" + p', '}');
      assert false;
    }
  }

  lemma GuardTail(ip: string, tail: string)
    ensures ("{ip:" + ip + "}" + tail)[4..] == ip + "}" + tail
  {
    assert "{ip:" + ip + "}" + tail == "{ip:" + (ip + "}" + tail);
  }

  // A counts key, which holds a hash, is none of the keys that hold strings.
  lemma CountsKeyApart(p: string, k: nat, p': string, k': nat, v: string, ip: string, q: string)
    requires Canonical(p) && Canonical(p')
    ensures CountsKey(p, k) != VotedKey(p', k', v)
    ensures CountsKey(p, k) != RateKey(ip) && CountsKey(p, k) != QuotaKey(ip, q)
  {
    assert CountsKey(p, k)[1] == 'v' && RateKey(ip)[1] == 'i' && QuotaKey(ip, q)[1] == 'i';
    var rest := ":voted:" + v;
    assert VotedKey(p', k', v) == TagForShard(p', k') + rest;
    assert rest[1] == 'v' && ":counts"[1] == 'c';
    if CountsKey(p, k) == VotedKey(p', k', v) {
      TagInjective(p, k, ":counts", p', k', rest);
      assert false;
    }
  }

  // ---- Hash tags ----

  function IndexOf(s: string, c: char): (i: nat)
    ensures i <= |s| && (forall j :: 0 <= j < i ==> s[j] != c) && (i < |s| ==> s[i] == c)
  {
    if s == [] || s[0] == c then 0 else IndexOf(s[1..], c) + 1
  }

  // The part of a key a Redis cluster hashes: what stands between its first
  // opening brace and the next closing one, if there is anything, else all of it.
  function HashTag(key: string): string {
    var open := IndexOf(key, '{');
    if open == |key| then key
    else
      var rest := key[open + 1..];
      var close := IndexOf(rest, '}');
      if close == |rest| || close == 0 then key else rest[..close]
  }

  lemma TagOf(tag: string, rest: string)
    requires tag != [] && '}' !in tag
    ensures HashTag("{" + tag + "}" + rest) == tag
  {
    var key := "{" + tag + "}" + rest;
    assert key[0] == '{' && key[1..] == tag + "}" + rest;
    var close := IndexOf(key[1..], '}');
    assert key[1..][|tag|] == '}';
    assert forall j :: 0 <= j < |tag| ==> key[1..][j] == tag[j] && key[1..][j] != '}';
    assert close == |tag|;
  }

  // Both keys of each script lie in one slot of a cluster, for every poll id and
  // address without a closing brace: they are hashed by the poll and the shard, and
  // by the address.
  lemma BallotKeysShareSlot(pollID: string, k: nat, voter: string)
    requires '}' !in pollID
    ensures HashTag(VotedKey(pollID, k, voter)) == HashTag(CountsKey(pollID, k)) == "v:" + pollID + ":" + Itoa(k)
  {
    ItoaDigits(k);
    hide HashTag, Itoa;
    var tag := "v:" + pollID + ":" + Itoa(k);
    assert TagForShard(pollID, k) == "{" + tag + "}";
    TagOf(tag, ":counts");
    TagOf(tag, ":voted:" + voter);
    assert VotedKey(pollID, k, voter) == "{" + tag + "}" + (":voted:" + voter);
  }

  lemma GuardKeysShareSlot(ip: string, pollID: string)
    requires Address(ip)
    ensures HashTag(RateKey(ip)) == HashTag(QuotaKey(ip, pollID)) == "ip:" + ip
  {
    hide HashTag;
    var tag := "ip:" + ip;
    TagOf(tag, ":rl");
    TagOf(tag, ":pq:" + pollID);
    assert RateKey(ip) == "{" + tag + "}" + ":rl";
    assert QuotaKey(ip, pollID) == "{" + tag + "}" + (":pq:" + pollID);
  }

  // The key strings themselves, on an example.
  lemma KeyExample()
    ensures VotedKey("p", 12, "h") == "{v:p:12}:voted:h" && CountsKey("p", 12) == "{v:p:12}:counts"
    ensures RateKey("::1") == "{ip:::1}:rl" && QuotaKey("::1", "p") == "{ip:::1}:pq:p"
  {
    assert Itoa(12) == Itoa(1) + "2" && Itoa(1) == "1";
  }
}
