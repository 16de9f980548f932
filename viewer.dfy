/** The web client's light identity: a viewer id and name kept in the
    browser's `localStorage`, created on first use, and the request headers
    that carry them. */
module Viewer {
  import opened Common

  const IdKey: string := "viewer.id"
  const NameKey: string := "viewer.name"

  /** The name used while the viewer has not chosen one. */
  const DefaultName: string := "You"

  /** The template the fallback id is built from. */
  const Template: string := "xxxxxxxx-xxxx-4xxx-yxxx-xxxxxxxxxxxx"

  datatype ViewerInfo = ViewerInfo(id: string, name: string)

  /** The browser's `localStorage`: a dictionary from keys to strings. */
  class LocalStorage {
    var items: map<string, string>

    constructor(items: map<string, string>)
      ensures this.items == items
    {
      this.items := items;
    }
  }

  /** `localStorage.getItem(key) || ''`: the stored string, or empty when
      the key is missing. */
  function Stored(items: map<string, string>, key: string): string {
    if key in items then items[key] else ""
  }

  /** A lower-case hexadecimal digit, as `toString(16)` writes it. */
  function HexDigit(v: nat): (c: char)
    requires v < 16
    ensures IsHex(c)
  {
    if v < 10 then ('0' as int + v) as char else ('a' as int + v - 10) as char
  }

  predicate IsHex(c: char) {
    ('0' <= c <= '9') || ('a' <= c <= 'f')
  }

  /** The value written for template character `t` from a random nibble `r`
      (`Math.random() * 16 | 0`): `r` itself for `x`, `(r & 0x3) | 0x8` for
      `y`. */
  function Nibble(t: char, r: nat): (v: nat)
    requires r < 16
    ensures v < 16
  {
    if t == 'x' then r else (((r as bv8) & 0x3) | 0x8) as nat
  }

  /** The callback `replace` calls on each template character: `x` and `y`
      become a hexadecimal digit through `Nibble`, every other character
      stays. */
  function FallbackChar(t: char, r: nat): char
    requires r < 16
  {
    if t == 'x' || t == 'y' then HexDigit(Nibble(t, r)) else t
  }

  predicate Nibbles(rs: seq<nat>) {
    |rs| == |Template| && forall i :: 0 <= i < |rs| ==> rs[i] < 16
  }

  /** The fallback id: the template with every character passed through
      the callback. */
  function Fallback(rs: seq<nat>): (u: string)
    requires Nibbles(rs)
    ensures |u| == |Template|
    ensures forall i :: 0 <= i < |u| ==> u[i] == FallbackChar(Template[i], rs[i])
  {
    seq(|Template|, i requires 0 <= i < |Template| => FallbackChar(Template[i], rs[i]))
  }

  /** `uuid()`: the browser's own `crypto.randomUUID` when it has one
      (`native`), else the template filled from the random nibbles `rs`. */
  function UuidOf(native: Option<string>, rs: seq<nat>): (u: string)
    requires Nibbles(rs)
    ensures native.Some? ==> u == native.value
    ensures native.None? ==> IsV4(u)
  {
    if native.Some? then native.value else FallbackIsV4(rs); Fallback(rs)
  }

  /** The shape of a version-4 UUID in its textual form. */
  predicate IsV4(u: string) {
    && |u| == 36
    && (forall i :: 0 <= i < 36 && i in {8, 13, 18, 23} ==> u[i] == '-')
    && u[14] == '4'
    && u[19] in "89ab"
    && (forall i :: 0 <= i < 36 && i !in {8, 13, 14, 18, 19, 23} ==> IsHex(u[i]))
  }

  /** `uuid`'s fallback branch, character by character as `replace` with a
      callback does it. */
  method Uuid(native: Option<string>, rs: seq<nat>) returns (u: string)
    requires Nibbles(rs)
    ensures u == UuidOf(native, rs)
    ensures native.None? ==> IsV4(u)
  {
    if native.Some? {
      return native.value;
    }
    u := "";
    var i := 0;
    while i < |Template|
      invariant 0 <= i <= |Template|
      invariant u == Fallback(rs)[..i]
    {
      var c := FallbackChar(Template[i], rs[i]);
      assert Fallback(rs)[..i + 1] == Fallback(rs)[..i] + [c];
      u := u + [c];
      i := i + 1;
    }
    assert u == Fallback(rs);
    FallbackIsV4(rs);
  }

  /** `(r & 0x3) | 0x8` is 8 plus the low two bits of `r`. */
  lemma VariantNibble(r: nat)
    requires r < 16
    ensures Nibble('y', r) == 8 + r % 4
  {
    var b := r as bv8;
    assert (b & 0x3) | 0x8 == (b & 0x3) + 0x8;
    assert (b & 0x3) as nat == r % 4;
  }

  /** The fallback id is a well-formed version-4 UUID. */
  lemma FallbackIsV4(rs: seq<nat>)
    requires Nibbles(rs)
    ensures IsV4(Fallback(rs))
  {
    var u := Fallback(rs);
    VariantNibble(rs[19]);
    assert Template[19] == 'y';
    assert Template[14] == '4';
    forall i | 0 <= i < 36 && i in {8, 13, 18, 23} ensures u[i] == '-' {
      assert Template[i] == '-';
    }
    forall i | 0 <= i < 36 && i !in {8, 13, 14, 18, 19, 23} ensures IsHex(u[i]) {
      assert Template[i] == 'x';
    }
  }

  /** What `getViewer` returns for the given storage: the stored id, or the
      freshly generated one when none (or an empty one) is stored; the
      stored name, or "You". */
  function ViewerOf(items: map<string, string>, generated: string): (v: ViewerInfo)
    ensures v.name != ""
    ensures generated != "" ==> v.id != ""
    ensures IdKey in items && items[IdKey] != "" ==> v.id == items[IdKey]
  {
    ViewerInfo(if Stored(items, IdKey) != "" then Stored(items, IdKey) else generated,
               if Stored(items, NameKey) != "" then Stored(items, NameKey) else DefaultName)
  }

  /** The storage after `getViewer`: the generated id is saved when none was. */
  function AfterGet(items: map<string, string>, generated: string): (r: map<string, string>)
    ensures r.Keys == items.Keys + {IdKey}
    ensures forall k :: k in items && k != IdKey ==> r[k] == items[k]
    ensures Stored(r, IdKey) == ViewerOf(items, generated).id
  {
    if Stored(items, IdKey) != "" then items else items[IdKey := generated]
  }

  /** `getViewer`. */
  method GetViewer(storage: LocalStorage, native: Option<string>, rs: seq<nat>) returns (v: ViewerInfo)
    requires Nibbles(rs)
    modifies storage
    ensures v == ViewerOf(old(storage.items), UuidOf(native, rs))
    ensures storage.items == AfterGet(old(storage.items), UuidOf(native, rs))
  {
    var id := Stored(storage.items, IdKey);
    if id == "" {
      id := Uuid(native, rs);
      storage.items := storage.items[IdKey := id];
    }
    var name := Stored(storage.items, NameKey);
    if name == "" {
      name := DefaultName;
    }
    v := ViewerInfo(id, name);
  }

  /** `setViewerName`: an empty name is stored as "You". */
  method SetViewerName(storage: LocalStorage, name: string)
    modifies storage
    ensures storage.items == old(storage.items)[NameKey := if name == "" then DefaultName else name]
  {
    storage.items := storage.items[NameKey := if name == "" then DefaultName else name];
  }

  /** `viewerHeaders`: the id and name `getViewer` gives, as request headers. */
  method ViewerHeaders(storage: LocalStorage, native: Option<string>, rs: seq<nat>)
    returns (headers: map<string, string>)
    requires Nibbles(rs)
    modifies storage
    ensures headers.Keys == {"x-viewer-id", "x-viewer-name"}
    ensures headers["x-viewer-id"] == ViewerOf(old(storage.items), UuidOf(native, rs)).id
    ensures headers["x-viewer-name"] == ViewerOf(old(storage.items), UuidOf(native, rs)).name
    ensures storage.items == AfterGet(old(storage.items), UuidOf(native, rs))
  {
    var v := GetViewer(storage, native, rs);
    headers := map["x-viewer-id" := v.id, "x-viewer-name" := v.name];
  }

  /** A stored non-empty id is returned as it is and the storage is left
      alone. */
  lemma StoredIdKept(items: map<string, string>, generated: string)
    requires Stored(items, IdKey) != ""
    ensures ViewerOf(items, generated).id == items[IdKey]
    ensures AfterGet(items, generated) == items
  {
  }

  /** Once `getViewer` has run, every later call returns the same id,
      whatever it would generate. */
  lemma ViewerStable(items: map<string, string>, native: Option<string>, rs: seq<nat>,
                     native2: Option<string>, rs2: seq<nat>)
    requires Nibbles(rs) && Nibbles(rs2)
    requires native.Some? ==> native.value != ""
    ensures ViewerOf(AfterGet(items, UuidOf(native, rs)), UuidOf(native2, rs2)).id
            == ViewerOf(items, UuidOf(native, rs)).id
    ensures AfterGet(AfterGet(items, UuidOf(native, rs)), UuidOf(native2, rs2))
            == AfterGet(items, UuidOf(native, rs))
  {
    assert |Fallback(rs)| == 36;
  }

  /** After `setViewerName`, `getViewer` reports that name, or "You" for an
      empty one, and the same id as before. */
  lemma NameAfterSet(items: map<string, string>, name: string, generated: string)
    ensures ViewerOf(items[NameKey := if name == "" then DefaultName else name], generated).name
            == (if name == "" then DefaultName else name)
    ensures ViewerOf(items[NameKey := if name == "" then DefaultName else name], generated).id
            == ViewerOf(items, generated).id
  {
    assert IdKey != NameKey;
  }
}
