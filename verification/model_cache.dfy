/**
 * `NotDefaultModelCache`: the session-wide model cache, addressed by a
 * (groupId, artifactId, version, tag) key. The underlying repository cache is a finite map in
 * which storing `null` leaves no entry behind.
 */
module NotDefaultModelCache {
  import opened Wrappers
  import opened Exceptions

  datatype Key = Key(groupId: string, artifactId: string, version: string, tag: string)

  /** `new Key(...)`: the constructor hashes every field, so a `null` field throws. */
  function NewKey(groupId: Option<string>, artifactId: Option<string>, version: Option<string>, tag: Option<string>)
    : (r: Result<Key, Exception>)
    ensures r.Success? <==> groupId.Some? && artifactId.Some? && version.Some? && tag.Some?
    ensures r.Success? ==> r.value.groupId == groupId.value && r.value.artifactId == artifactId.value
                           && r.value.version == version.value && r.value.tag == tag.value
  {
    if groupId.Some? && artifactId.Some? && version.Some? && tag.Some? then
      Success(Key(groupId.value, artifactId.value, version.value, tag.value))
    else Failure(NullPointer("model cache key"))
  }

  /** The argument of `equals(Object)`: null, another key, or an object of some other class. */
  datatype Obj = NullRef | KeyRef(key: Key) | OtherRef

  /** `Key.equals`: true exactly for another key with the same four fields. */
  function Equals(k: Key, obj: Obj): (r: bool)
    ensures r <==> obj == KeyRef(k)
  {
    match obj
    case KeyRef(other) =>
      k.artifactId == other.artifactId && k.groupId == other.groupId && k.version == other.version && k.tag == other.tag
    case _ => false
  }

  const TwoTo32: int := 0x1_0000_0000
  const TwoTo31: int := 0x8000_0000

  /** Java `int` arithmetic: `x` wrapped into the signed 32-bit range. */
  function Int32(x: int): (r: int)
    ensures -TwoTo31 <= r < TwoTo31
    ensures (x - r) % TwoTo32 == 0
  {
    var m := x % TwoTo32;
    if m >= TwoTo31 then m - TwoTo32 else m
  }

  /**
   * The UTF-16 code units Java stores for one character: the character itself below U+10000,
   * otherwise a high surrogate and a low surrogate.
   */
  function Utf16Units(c: char): (r: seq<int>)
    ensures (c as int) < 0x1_0000 <==> |r| == 1
    ensures |r| == 1 || |r| == 2
    ensures |r| == 1 ==> r[0] == c as int
    ensures |r| == 2 ==> 0xD800 <= r[0] < 0xDC00 && 0xDC00 <= r[1] < 0xE000
  {
    var x := c as int;
    if x < 0x1_0000 then [x]
    else [0xD800 + (x - 0x1_0000) / 0x400, 0xDC00 + (x - 0x1_0000) % 0x400]
  }

  /** A surrogate pair decodes back to the character it encodes. */
  lemma Utf16Decodes(c: char)
    requires (c as int) >= 0x1_0000
    ensures var u := Utf16Units(c); 0x1_0000 + (u[0] - 0xD800) * 0x400 + (u[1] - 0xDC00) == c as int
  {
  }

  /** The UTF-16 form of a string, character after character. */
  function Utf16(s: string): (r: seq<int>)
    ensures |r| >= |s|
  {
    if s == [] then [] else Utf16(s[..|s| - 1]) + Utf16Units(s[|s| - 1])
  }

  /** `h = 31 * h + u` over code units, in 32-bit arithmetic. */
  function UnitsHash(us: seq<int>): (h: int)
    ensures -TwoTo31 <= h < TwoTo31
  {
    if us == [] then 0 else Int32(31 * UnitsHash(us[..|us| - 1]) + us[|us| - 1])
  }

  /** `String.hashCode`: the unit hash of the string's UTF-16 form. */
  function StringHash(s: string): (h: int)
    ensures -TwoTo31 <= h < TwoTo31
    ensures s == [] ==> h == 0
  {
    UnitsHash(Utf16(s))
  }

  /**
   * Appending a character extends the hash by one step per code unit: one step below U+10000,
   * two (high surrogate, then low) above.
   */
  lemma StringHashAppend(s: string, c: char)
    ensures var u := Utf16Units(c);
      StringHash(s + [c]) == if |u| == 1 then Int32(31 * StringHash(s) + u[0])
                             else Int32(31 * Int32(31 * StringHash(s) + u[0]) + u[1])
  {
    var t := s + [c];
    assert t[..|t| - 1] == s && t[|t| - 1] == c;
    var u := Utf16Units(c);
    assert Utf16(t) == Utf16(s) + u;
    if |u| == 2 {
      assert Utf16(s) + u == Utf16(s) + [u[0]] + [u[1]];
      UnitsHashSnoc(Utf16(s) + [u[0]], u[1]);
      UnitsHashSnoc(Utf16(s), u[0]);
    } else {
      assert u == [u[0]];
      UnitsHashSnoc(Utf16(s), u[0]);
    }
  }

  lemma UnitsHashSnoc(us: seq<int>, x: int)
    ensures UnitsHash(us + [x]) == Int32(31 * UnitsHash(us) + x)
  {
    assert (us + [x])[..|us|] == us;
  }

  /** Example: U+1F600, outside the basic plane, hashes as its two surrogates, as in Java. */
  lemma SupplementaryHash()
    ensures StringHash([0x1F600 as char]) == 31 * 0xD83D + 0xDE00
  {
    StringHashAppend([], 0x1F600 as char);
    assert [] + [0x1F600 as char] == [0x1F600 as char];
  }

  /** The hash the constructor stores: 17, then `h * 31 + field.hashCode()` for each field in order. */
  function HashCode(k: Key): (h: int)
    ensures -TwoTo31 <= h < TwoTo31
  {
    var h0 := 17;
    var h1 := Int32(h0 * 31 + StringHash(k.groupId));
    var h2 := Int32(h1 * 31 + StringHash(k.artifactId));
    var h3 := Int32(h2 * 31 + StringHash(k.version));
    Int32(h3 * 31 + StringHash(k.tag))
  }

  /** `get(groupId, artifactId, version, tag)`. */
  function Get<D>(cache: map<Key, D>, groupId: Option<string>, artifactId: Option<string>, version: Option<string>, tag: Option<string>)
    : (r: Result<Option<D>, Exception>)
    ensures r.Success? <==> NewKey(groupId, artifactId, version, tag).Success?
    ensures r.Success? ==> var k := NewKey(groupId, artifactId, version, tag).value;
                           (r.value.Some? <==> k in cache) && (k in cache ==> r.value.value == cache[k])
  {
    var k :- NewKey(groupId, artifactId, version, tag);
    Success(if k in cache then Some(cache[k]) else None)
  }

  /** `put(groupId, artifactId, version, tag, data)`; storing `null` evicts the entry. */
  function Put<D>(cache: map<Key, D>, groupId: Option<string>, artifactId: Option<string>, version: Option<string>, tag: Option<string>, data: Option<D>)
    : (r: Result<map<Key, D>, Exception>)
    ensures r.Success? <==> NewKey(groupId, artifactId, version, tag).Success?
    ensures r.Success? ==>
      var k := NewKey(groupId, artifactId, version, tag).value;
      && (data.Some? ==> k in r.value && r.value[k] == data.value)
      && (data.None? ==> k !in r.value)
      && (forall o :: o != k ==> (o in r.value <==> o in cache))
      && (forall o :: o != k && o in cache ==> r.value[o] == cache[o])
  {
    var k :- NewKey(groupId, artifactId, version, tag);
    Success(if data.Some? then cache[k := data.value] else cache - {k})
  }

  /** A `get` with the same four strings as a `put` addresses the entry that `put` wrote. */
  lemma PutThenGet<D>(cache: map<Key, D>, g: string, a: string, v: string, t: string, data: Option<D>)
    ensures Put(cache, Some(g), Some(a), Some(v), Some(t), data).Success?
    ensures Get(Put(cache, Some(g), Some(a), Some(v), Some(t), data).value, Some(g), Some(a), Some(v), Some(t)) == Success(data)
  {
  }
}
