/**
  The icon cache of the file manager (src/app/icons.rs): a memoising map from
  an icon name at a pixel size to a loaded icon handle. It is seeded with a fixed
  bundle of vector icons at size 14; every other key is resolved by a theme
  lookup on first use and kept from then on. Nothing is ever removed.
 */
module Icons {

  /** Rust's `u16`, the type of an icon size. */
  newtype u16 = x: int | 0 <= x < 0x1_0000

  /** `IconCacheKey`: a key depends on the name AND the size. */
  datatype IconCacheKey = IconCacheKey(name: string, size: u16)

  /**
    An icon handle, described by how it was made: from the bundled SVG of that
    name, marked symbolic, or by a theme lookup of a name at a size. The bytes
    behind a handle are not modelled.
   */
  datatype Handle =
    | Svg(bundled: string, symbolic: bool)
    | Named(name: string, size: u16)

  /** `icon::icon(handle).size(size)`. */
  datatype Icon = Icon(handle: Handle, size: u16)

  /** The size every bundled icon is seeded at. */
  const BundledSize: u16 := 14

  /** The names seeded by `IconCache::new`, in insertion order (one name appears twice). */
  const Bundle: seq<string> := [
    "tab-new-filled-symbolic", "value-increase-symbolic", "value-decrease-symbolic",
    "loupe-symbolic", "folder-symbolic", "folder-new-symbolic", "edit-copy-symbolic",
    "paper-symbolic", "document-open-symbolic", "arrow-into-box-symbolic",
    "edit-symbolic", "user-trash-symbolic", "cross-small-square-filled-symbolic",
    "external-link-symbolic", "cut-symbolic", "copy-symbolic", "clipboard-symbolic",
    "edit-select-all-symbolic", "history-undo-symbolic", "grid-symbolic",
    "list-large-symbolic", "view-conceal-symbolic", "settings-symbolic",
    "info-outline-symbolic", "dock-left-symbolic", "arrow-into-box-symbolic",
    "image-round-symbolic", "terminal-symbolic", "symbolic-link-symbolic",
    "package-x-generic-symbolic", "archive-extract-symbolic", "brush-monitor-symbolic",
    "display-symbolic", "shell-overview-symbolic", "empty-trash-bin-symbolic"
  ]

  /** `icon::from_svg_bytes(<bundled svg>).symbolic(true)`. */
  function BundledHandle(name: string): Handle {
    Svg(name, true)
  }

  /** The fallback loader `icon::from_name(name).size(size).handle()`. */
  function FromName(name: string, size: u16): Handle {
    Named(name, size)
  }

  /** The handle a key stands for: the bundled icon when it was seeded, the theme icon otherwise. */
  function Resolve(key: IconCacheKey): Handle {
    if key.size == BundledSize && key.name in Bundle then BundledHandle(key.name)
    else FromName(key.name, key.size)
  }

  /** The map built by inserting every name of `names`, in order, at the bundled size. */
  function Seed(names: seq<string>): (m: map<IconCacheKey, Handle>)
    ensures forall k :: k in m <==> k.size == BundledSize && k.name in names
    ensures forall k :: k in m ==> m[k] == BundledHandle(k.name)
  {
    if names == [] then map[]
    else
      var last := names[|names| - 1];
      assert names == names[..|names| - 1] + [last];
      Seed(names[..|names| - 1])[IconCacheKey(last, BundledSize) := BundledHandle(last)]
  }

  /** A cache state whose every entry is the handle its key stands for and which holds the whole bundle. */
  ghost predicate Consistent(m: map<IconCacheKey, Handle>) {
    && (forall n :: n in Bundle ==> IconCacheKey(n, BundledSize) in m)
    && (forall k :: k in m ==> m[k] == Resolve(k))
  }

  /** The outcome of `cache.entry(key).or_insert_with(loader)`: the new map and the handle returned. */
  datatype Lookup = Lookup(cache: map<IconCacheKey, Handle>, handle: Handle)

  /** `entry(key).or_insert_with(|| from_name(name).size(size).handle())` on a map value. */
  function OrInsert(m: map<IconCacheKey, Handle>, key: IconCacheKey): (r: Lookup)
    ensures r.cache.Keys == m.Keys + {key}
    ensures key in r.cache && r.cache[key] == r.handle
    ensures forall k :: k in m ==> r.cache[k] == m[k]
    ensures key !in m ==> r.handle == FromName(key.name, key.size)
  {
    if key in m then Lookup(m, m[key])
    else
      var h := FromName(key.name, key.size);
      Lookup(m[key := h], h)
  }

  /** A hit returns the stored handle and leaves the map as it was. */
  lemma OrInsertHit(m: map<IconCacheKey, Handle>, key: IconCacheKey)
    requires key in m
    ensures OrInsert(m, key) == Lookup(m, m[key])
  {
  }

  /** A miss inserts exactly the missing key, mapped to the loader's handle, and changes nothing else. */
  lemma OrInsertMiss(m: map<IconCacheKey, Handle>, key: IconCacheKey)
    requires key !in m
    ensures var r := OrInsert(m, key);
      && r.handle == FromName(key.name, key.size)
      && r.cache == m[key := r.handle]
      && |r.cache| == |m| + 1
  {
  }

  /** A second lookup of the same key returns the same handle and does not change the map. */
  lemma OrInsertIdempotent(m: map<IconCacheKey, Handle>, key: IconCacheKey)
    ensures var r := OrInsert(m, key);
      OrInsert(r.cache, key) == Lookup(r.cache, r.handle)
  {
  }

  /**
    One name at two sizes gives two separate entries: looking up the second
    size keeps the first one's handle, and both keys are present.
   */
  lemma SizesAreIndependent(m: map<IconCacheKey, Handle>, name: string, s1: u16, s2: u16)
    requires s1 != s2
    ensures var r1 := OrInsert(m, IconCacheKey(name, s1));
      var r2 := OrInsert(r1.cache, IconCacheKey(name, s2));
      && IconCacheKey(name, s1) in r2.cache && IconCacheKey(name, s2) in r2.cache
      && r2.cache[IconCacheKey(name, s1)] == r1.handle
      && (IconCacheKey(name, s2) !in m ==> r2.handle == FromName(name, s2))
  {
  }

  /**
    On a consistent cache the lookup is transparent: the handle returned is the
    one the key stands for whatever was cached before, and the cache stays consistent.
   */
  lemma OrInsertResolves(m: map<IconCacheKey, Handle>, key: IconCacheKey)
    requires Consistent(m)
    ensures OrInsert(m, key).handle == Resolve(key)
    ensures Consistent(OrInsert(m, key).cache)
  {
    if key !in m {
      assert !(key.size == BundledSize && key.name in Bundle);
    }
  }

  /** The seeded map is consistent. */
  lemma SeedConsistent()
    ensures Consistent(Seed(Bundle))
  {
    var m := Seed(Bundle);
    forall k | k in m ensures m[k] == Resolve(k) {
      assert k.size == BundledSize && k.name in Bundle;
    }
  }

  /** The bundle's first names are all distinct. */
  lemma BundleDistinctHead()
    ensures forall k :: 0 <= k < 18 ==> Bundle[k] !in Bundle[..k]
  {
  }

  /** The names from index 18 up to the repeat are new. */
  lemma BundleDistinctMiddle()
    ensures forall k :: 18 <= k < 25 ==> Bundle[k] !in Bundle[..k]
  {
  }

  /** The names after the repeat, to index 30, are new. */
  lemma BundleDistinctLate()
    ensures forall k :: 26 <= k < 31 ==> Bundle[k] !in Bundle[..k]
  {
  }

  /** The last four names are new. */
  lemma BundleDistinctTail()
    ensures forall k :: 31 <= k < 35 ==> Bundle[k] !in Bundle[..k]
  {
  }

  /** A bundle name was seen before exactly at index 25, the second "arrow-into-box-symbolic". */
  lemma BundleRepeats(k: nat)
    requires k < |Bundle|
    ensures |Bundle| == 35
    ensures Bundle[k] in Bundle[..k] <==> k == 25
  {
    if k == 25 {
      assert Bundle[..k][9] == Bundle[25];
    } else if k < 18 {
      BundleDistinctHead();
    } else if k < 25 {
      BundleDistinctMiddle();
    } else if k < 31 {
      BundleDistinctLate();
    } else {
      BundleDistinctTail();
    }
  }

  /** Seeding one more name adds a key exactly when the name is new. */
  lemma SeedStep(names: seq<string>, k: nat)
    requires 0 < k <= |names|
    ensures |Seed(names[..k])| == |Seed(names[..k - 1])| + (if names[k - 1] in names[..k - 1] then 0 else 1)
  {
    var prefix := names[..k - 1];
    assert names[..k][..k - 1] == prefix;
    var key := IconCacheKey(names[k - 1], BundledSize);
    assert Seed(names[..k]) == Seed(prefix)[key := BundledHandle(names[k - 1])];
    assert key in Seed(prefix) <==> names[k - 1] in prefix;
  }

  /** Seeding the first `k` bundle names gives one key per name, the repeat at index 25 adding none. */
  lemma {:induction false} SeedPrefixSize(k: nat)
    requires k <= |Bundle|
    ensures |Seed(Bundle[..k])| == if k <= 25 then k else k - 1
  {
    if k > 0 {
      SeedPrefixSize(k - 1);
      BundleRepeats(k - 1);
      SeedStep(Bundle, k);
    }
  }

  /** The seeded cache has 34 keys for the 35 insertions: the repeated name leaves a single entry. */
  lemma SeedSize()
    ensures |Seed(Bundle)| == |Bundle| - 1 == 34
  {
    SeedPrefixSize(|Bundle|);
    assert Bundle[..|Bundle|] == Bundle;
  }

  /** The seeded keys are the bundled names at size 14. */
  lemma SeedKeys()
    ensures Seed(Bundle).Keys == set n | n in Bundle :: IconCacheKey(n, BundledSize)
  {
  }

  /** The cache object with its single map field. */
  class IconCache {
    var cache: map<IconCacheKey, Handle>

    ghost predicate Valid()
      reads this
    {
      Consistent(cache)
    }

    /** `IconCache::new`: the 35 unrolled `bundle!` insertions, one after another, at size 14. */
    constructor ()
      ensures cache == Seed(Bundle)
      ensures cache.Keys == set n | n in Bundle :: IconCacheKey(n, BundledSize)
      ensures |cache| == 34
      ensures Valid()
    {
      cache := Seed(Bundle);
      SeedConsistent();
      SeedSize();
      SeedKeys();
    }

    /** `IconCache::get_handle`: get the handle for (name, size), loading and inserting it on a miss. */
    method GetHandle(name: string, size: u16) returns (h: Handle)
      requires Valid()
      modifies this
      ensures Valid()
      ensures cache == OrInsert(old(cache), IconCacheKey(name, size)).cache
      ensures h == OrInsert(old(cache), IconCacheKey(name, size)).handle
      ensures IconCacheKey(name, size) in old(cache) ==> h == old(cache)[IconCacheKey(name, size)] && cache == old(cache)
      ensures IconCacheKey(name, size) !in old(cache) ==>
        h == FromName(name, size) && cache == old(cache)[IconCacheKey(name, size) := h]
      ensures old(cache).Keys <= cache.Keys
      ensures h == Resolve(IconCacheKey(name, size))
    {
      var key := IconCacheKey(name, size);
      OrInsertResolves(cache, key);
      if key !in cache {
        cache := cache[key := FromName(name, size)];
      }
      h := cache[key];
    }

    /** `IconCache::get_icon`: the same map update as `GetHandle`, with the handle wrapped as an icon of that size. */
    method GetIcon(name: string, size: u16) returns (icon: Icon)
      requires Valid()
      modifies this
      ensures Valid()
      ensures cache == OrInsert(old(cache), IconCacheKey(name, size)).cache
      ensures icon == Icon(OrInsert(old(cache), IconCacheKey(name, size)).handle, size)
      ensures old(cache).Keys <= cache.Keys
      ensures icon == Icon(Resolve(IconCacheKey(name, size)), size)
    {
      var key := IconCacheKey(name, size);
      OrInsertResolves(cache, key);
      if key !in cache {
        cache := cache[key := FromName(name, size)];
      }
      icon := Icon(cache[key], size);
    }
  }
}
