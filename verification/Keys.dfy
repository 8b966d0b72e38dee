/**
 The key strings: `sk@version` on command and history rows, `pk#sk` as the id of an item,
 `type#tenant` as a partition key, and `s3://bucket/key` for offloaded attributes.
 */
module Keys {
  import opened Wrappers

  const KEY_SEPARATOR := '#'
  const VER_SEPARATOR := '@'
  const VERSION_LATEST := -1

  // ---------------------------------------------------------------- numbers

  function ShowDigit(d: nat): char
    requires d < 10
  {
    ('0' as int + d) as char
  }

  function ShowNat(n: nat): string {
    if n < 10 then [ShowDigit(n)] else ShowNat(n / 10) + [ShowDigit(n % 10)]
  }

  function ShowInt(n: int): string {
    if n < 0 then "-" + ShowNat(-n) else ShowNat(n)
  }

  function ReadDigit(c: char): Option<nat> {
    if '0' <= c <= '9' then Some(c as nat - '0' as nat) else None
  }

  // The value of a string of digits; the empty string counts as zero.
  function ReadNat(s: string): Option<nat> {
    if s == "" then Some(0)
    else
      var front, last := ReadNat(s[..|s| - 1]), ReadDigit(s[|s| - 1]);
      if front.Some? && last.Some? then Some(front.value * 10 + last.value) else None
  }

  function ReadInt(s: string): Option<int> {
    if s != "" && s[0] == '-' then
      var digits := ReadNat(s[1..]);
      if |s| > 1 && digits.Some? then Some(0 - digits.value as int) else None
    else
      ReadNat(s)
  }

  predicate AllDigits(s: string) {
    forall i :: 0 <= i < |s| ==> '0' <= s[i] <= '9'
  }

  lemma Snoc(s: string, d: nat)
    requires d < 10 && AllDigits(s) && ReadNat(s).Some?
    ensures AllDigits(s + [ShowDigit(d)]) && ReadNat(s + [ShowDigit(d)]) == Some(ReadNat(s).value * 10 + d)
  {
    var t := s + [ShowDigit(d)];
    assert t[..|t| - 1] == s;
  }

  lemma {:induction false} ShowNatReadsBack(n: nat)
    ensures ShowNat(n) != "" && AllDigits(ShowNat(n)) && ReadNat(ShowNat(n)) == Some(n)
  {
    if n < 10 {
      Snoc("", n);
      assert "" + [ShowDigit(n)] == ShowNat(n);
    } else {
      ShowNatReadsBack(n / 10);
      Snoc(ShowNat(n / 10), n % 10);
    }
  }

  // A printed number reads back as itself, and contains no separator.
  lemma ShowIntReadsBack(n: int)
    ensures ReadInt(ShowInt(n)) == Some(n)
    ensures VER_SEPARATOR !in ShowInt(n) && KEY_SEPARATOR !in ShowInt(n)
  {
    ShowNatReadsBack(if n < 0 then -n else n);
    if n < 0 {
      assert ShowInt(n)[1..] == ShowNat(-n);
    }
  }

  // ---------------------------------------------------------------- separators

  function LastIndexOf(s: string, c: char): (i: int)
    ensures -1 <= i < |s|
    ensures i >= 0 ==> s[i] == c
    ensures forall k :: i < k < |s| ==> s[k] != c
  {
    if s == "" then -1
    else if s[|s| - 1] == c then |s| - 1
    else LastIndexOf(s[..|s| - 1], c)
  }

  lemma LastIndexIs(s: string, c: char, i: nat)
    requires i < |s| && s[i] == c && forall k :: i < k < |s| ==> s[k] != c
    ensures LastIndexOf(s, c) == i
  {
  }

  // ---------------------------------------------------------------- versioned sort keys

  function RemoveVersion(sk: string): string {
    var i := LastIndexOf(sk, VER_SEPARATOR);
    if i == -1 then sk else sk[..i]
  }

  function AddVersion(sk: string, version: int): string {
    RemoveVersion(sk) + [VER_SEPARATOR] + ShowInt(version)
  }

  // None stands for a suffix that is not a plain decimal number.
  function GetVersion(sk: string): Option<int> {
    var i := LastIndexOf(sk, VER_SEPARATOR);
    if i == -1 then Some(VERSION_LATEST) else ReadInt(sk[i + 1..])
  }

  // Versions are read back, and a new version replaces the old one.
  lemma AddVersionReadsBack(sk: string, version: int)
    ensures GetVersion(AddVersion(sk, version)) == Some(version)
    ensures RemoveVersion(AddVersion(sk, version)) == RemoveVersion(sk)
    ensures forall w :: AddVersion(AddVersion(sk, version), w) == AddVersion(sk, w)
  {
    var base, shown := RemoveVersion(sk), ShowInt(version);
    var key := AddVersion(sk, version);
    ShowIntReadsBack(version);
    assert forall k :: |base| < k < |key| ==> key[k] == shown[k - |base| - 1];
    LastIndexIs(key, VER_SEPARATOR, |base|);
    assert key[|base| + 1..] == shown;
    assert key[..|base|] == base;
  }

  // Two versioned keys are the same row exactly when the base keys and the versions agree.
  lemma VersionedKeysAreInjective(a: string, v: int, b: string, w: int)
    ensures AddVersion(a, v) == AddVersion(b, w) <==> RemoveVersion(a) == RemoveVersion(b) && v == w
  {
    AddVersionReadsBack(a, v);
    AddVersionReadsBack(b, w);
  }

  // A base key survives versioning exactly when it does not contain the separator; a key
  // such as an e-mail address loses its tail and shares its rows with other keys.
  lemma BaseKeySurvivesIff(sk: string, version: int)
    ensures RemoveVersion(AddVersion(sk, version)) == sk <==> VER_SEPARATOR !in sk
  {
    AddVersionReadsBack(sk, version);
    var i := LastIndexOf(sk, VER_SEPARATOR);
    if VER_SEPARATOR in sk {
      assert i >= 0 && |RemoveVersion(sk)| < |sk|;
    }
  }

  // ---------------------------------------------------------------- item ids

  function GenerateId(pk: string, sk: string): string {
    pk + [KEY_SEPARATOR] + RemoveVersion(sk)
  }

  function SortKeyBaseFromId(pk: string, itemId: string): Option<string> {
    var prefix := pk + [KEY_SEPARATOR];
    if prefix <= itemId then Some(itemId[|prefix|..]) else None
  }

  // The id of an item determines its base sort key, and nothing but such ids is accepted.
  lemma IdReadsBack(pk: string, itemId: string, skBase: string)
    requires VER_SEPARATOR !in skBase
    ensures SortKeyBaseFromId(pk, itemId) == Some(skBase) <==> itemId == GenerateId(pk, skBase)
  {
    assert RemoveVersion(skBase) == skBase;
    var prefix := pk + [KEY_SEPARATOR];
    if prefix <= itemId {
      assert itemId == prefix + itemId[|prefix|..];
    }
  }

  // String.split on the key separator.
  function Split(s: string): (parts: seq<string>)
    ensures parts != []
  {
    if s == "" then [""]
    else
      var rest := Split(s[1..]);
      if s[0] == KEY_SEPARATOR then [""] + rest
      else [[s[0]] + rest[0]] + rest[1..]
  }

  function Join(parts: seq<string>): string
    requires parts != []
  {
    if |parts| == 1 then parts[0] else parts[0] + [KEY_SEPARATOR] + Join(parts[1..])
  }

  lemma JoinWiden(c: char, parts: seq<string>)
    requires parts != []
    ensures Join([[c] + parts[0]] + parts[1..]) == [c] + Join(parts)
  {
    var wide := [[c] + parts[0]] + parts[1..];
    assert wide[1..] == parts[1..];
    if |parts| > 1 {
      var tail := [KEY_SEPARATOR] + Join(parts[1..]);
      assert Join(wide) == ([c] + parts[0]) + tail;
      assert Join(parts) == parts[0] + tail;
    }
  }

  lemma {:induction false} JoinSplit(s: string)
    ensures Join(Split(s)) == s
  {
    if s != "" {
      JoinSplit(s[1..]);
      var rest := Split(s[1..]);
      assert s == [s[0]] + s[1..];
      if s[0] == KEY_SEPARATOR {
        assert ([""] + rest)[1..] == rest;
      } else {
        JoinWiden(s[0], rest);
      }
    }
  }

  lemma {:induction false} SplitFirst(a: string, b: string)
    requires KEY_SEPARATOR !in a
    ensures Split(a + [KEY_SEPARATOR] + b) == [a] + Split(b)
  {
    var s := a + [KEY_SEPARATOR] + b;
    if a == "" {
      assert s[1..] == b;
    } else {
      assert s[1..] == a[1..] + [KEY_SEPARATOR] + b;
      SplitFirst(a[1..], b);
      assert ([a[1..]] + Split(b))[1..] == Split(b);
      assert [a[0]] + a[1..] == a;
    }
  }

  function ParseTwoSegment(itemId: string): Option<(string, string)> {
    var parts := Split(itemId);
    if |parts| < 3 then None
    else Some((parts[0] + [KEY_SEPARATOR] + parts[1], Join(parts[2..])))
  }

  // An id over a two-segment partition key gives back the partition key and the base sort
  // key, whatever separators the sort key contains.
  lemma TwoSegmentIdReadsBack(kind: string, tenant: string, sk: string)
    requires KEY_SEPARATOR !in kind && KEY_SEPARATOR !in tenant
    ensures var pk := kind + [KEY_SEPARATOR] + tenant;
            ParseTwoSegment(GenerateId(pk, sk)) == Some((pk, RemoveVersion(sk)))
  {
    var pk := kind + [KEY_SEPARATOR] + tenant;
    var base := RemoveVersion(sk);
    assert GenerateId(pk, sk) == kind + [KEY_SEPARATOR] + (tenant + [KEY_SEPARATOR] + base);
    SplitFirst(kind, tenant + [KEY_SEPARATOR] + base);
    SplitFirst(tenant, base);
    var parts := Split(GenerateId(pk, sk));
    assert parts == [kind] + ([tenant] + Split(base));
    assert parts[2..] == Split(base);
    JoinSplit(base);
  }

  function TenantCode(pk: string): Option<string> {
    var i := LastIndexOf(pk, KEY_SEPARATOR);
    if i == -1 then None else Some(pk[i + 1..])
  }

  // The tenant of a partition key is what follows its last separator.
  lemma TenantReadsBack(kind: string, tenant: string)
    ensures TenantCode(kind + [KEY_SEPARATOR] + tenant) == Some(tenant) <==> KEY_SEPARATOR !in tenant
  {
    var pk := kind + [KEY_SEPARATOR] + tenant;
    assert forall k :: |kind| < k < |pk| ==> pk[k] == tenant[k - |kind| - 1];
    assert pk[|kind|] == KEY_SEPARATOR;
    if KEY_SEPARATOR !in tenant {
      LastIndexIs(pk, KEY_SEPARATOR, |kind|);
      assert pk[|kind| + 1..] == tenant;
    } else {
      var j :| 0 <= j < |tenant| && tenant[j] == KEY_SEPARATOR;
      assert pk[|kind| + 1 + j] == KEY_SEPARATOR;
      assert LastIndexOf(pk, KEY_SEPARATOR) > |kind|;
    }
  }

  // ---------------------------------------------------------------- offloaded attributes

  const S3_PREFIX := "s3://"

  function ToS3Uri(bucket: string, key: string): string {
    S3_PREFIX + bucket + "/" + key
  }

  function IndexFrom(s: string, c: char, start: nat): (i: int)
    requires start <= |s|
    ensures i == -1 || start <= i < |s|
    ensures i >= 0 ==> s[i] == c && forall k :: start <= k < i ==> s[k] != c
    ensures i == -1 ==> forall k :: start <= k < |s| ==> s[k] != c
    decreases |s| - start
  {
    if start == |s| then -1
    else if s[start] == c then start
    else IndexFrom(s, c, start + 1)
  }

  function ParseS3Uri(uri: string): (string, string)
    requires |S3_PREFIX| <= |uri| && '/' in uri[|S3_PREFIX|..]
  {
    var i := IndexFrom(uri, '/', |S3_PREFIX|);
    assert i >= 0 by {
      var j :| 0 <= j < |uri[|S3_PREFIX|..]| && uri[|S3_PREFIX|..][j] == '/';
      assert uri[|S3_PREFIX| + j] == '/';
    }
    (uri[|S3_PREFIX|..i], uri[i + 1..])
  }

  // The location of an offloaded object reads back exactly when the bucket has no slash.
  lemma S3UriReadsBack(bucket: string, key: string)
    ensures var uri := ToS3Uri(bucket, key);
            |S3_PREFIX| <= |uri| && '/' in uri[|S3_PREFIX|..] &&
            (ParseS3Uri(uri) == (bucket, key) <==> '/' !in bucket)
  {
    var uri := ToS3Uri(bucket, key);
    var p := |S3_PREFIX|;
    assert uri[p..] == bucket + "/" + key;
    assert uri[p..][|bucket|] == '/';
    assert uri[p + |bucket|] == '/';
    assert forall k :: 0 <= k < |bucket| ==> uri[p + k] == bucket[k];
    var i := IndexFrom(uri, '/', p);
    assert i <= p + |bucket|;
    if '/' in bucket {
      var j :| 0 <= j < |bucket| && bucket[j] == '/';
      assert uri[p + j] == '/';
      assert |uri[p..i]| < |bucket|;
    } else {
      assert forall k :: p <= k < p + |bucket| ==> uri[k] == bucket[k - p];
      assert i == p + |bucket|;
      assert uri[p..i] == bucket && uri[i + 1..] == key;
    }
  }
}
