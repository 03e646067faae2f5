/** The profile store of `src/config/config.rs` (and of its first generation,
    `src/config.rs`, which differs only in the name of one field).

    A profile is a named table in `~/.config/grgry.toml`. The store keeps the
    profiles in a hash map; its iteration order, which decides which active
    profile `active_profile` finds first and the order of
    `find_profiles_by_provider`'s answer, is kept as an explicit sequence
    `order` of the keys. The configuration file is modelled as its parsed
    document: a map from top-level keys to items. */
module Config {
  import opened Common

  datatype Profile = Profile(
    active: bool,
    pulloption: string,
    username: string,
    email: string,
    baseaddress: string,
    provider: string,
    token: string,
    targetbasepath: string)

  /** A TOML value as the store reads it: a boolean, a string, or any other
      kind of value (integer, array, ...). */
  datatype Value = Bool(b: bool) | Str(s: string) | OtherValue

  /** A top-level item of the document: a standard table (`[name]`), an
      inline table (`name = { ... }`), or a plain value. Values nested in an
      inline table are read only as booleans and strings. */
  datatype Item = Table(fields: map<string, Value>) | InlineTable(fields: map<string, Value>) | Plain(v: Value)

  type Doc = map<string, Item>

  /** The name under which the profile's provider kind is stored: `provider`
      in the current store, `managertype` in the first generation's. */
  const ProviderKey: string := "provider"
  const LegacyProviderKey: string := "managertype"

  /** The seven field names every profile table has besides the kind key. */
  predicate KindKeyOk(kindKey: string) {
    kindKey !in {"active", "pulloption", "username", "email", "baseaddress", "targetbasepath", "token"}
  }

  /** `item[key]`: the field of a table, standard or inline, or nothing. */
  function Lookup(item: Item, key: string): Option<Value> {
    if !item.Plain? && key in item.fields then Some(item.fields[key]) else None
  }

  /** The entry holds the string `s` under `key`. */
  predicate HoldsStr(item: Item, key: string, s: string) {
    Lookup(item, key) == Some(Str(s))
  }

  /** `item[key].as_bool().unwrap_or(false)`. */
  function BoolField(item: Item, key: string): bool {
    match Lookup(item, key)
    case Some(Bool(b)) => b
    case _ => false
  }

  /** `item[key].as_str().unwrap_or("")`. */
  function StrField(item: Item, key: string): string {
    match Lookup(item, key)
    case Some(Str(s)) => s
    case _ => ""
  }

  /** The eight field names `load_profiles` indexes an entry with. */
  function FieldNames(kindKey: string): set<string> {
    {"active", "pulloption", "username", "email", "baseaddress", "targetbasepath", kindKey, "token"}
  }

  /** `value[key]` succeeds for every field: the entry is a table, standard
      or inline, and holds each of the eight keys. Indexing an item by a key
      it does not hold, or a value that is not a table, panics. */
  predicate HasFields(kindKey: string, item: Item) {
    !item.Plain? && FieldNames(kindKey) <= item.fields.Keys
  }

  /** `load_profiles`, for one entry of the document: every field is indexed
      (a missing one, or an entry that is not a table, panics), and a field
      holding a value of its type is read as it is. */
  function LoadProfile(kindKey: string, item: Item): (r: Run<Profile>)
    ensures r.Ok? <==> HasFields(kindKey, item)
    ensures !r.Ok? ==> r == Panic
    ensures r.Ok? ==> (Lookup(item, "active") == Some(Bool(true)) <==> r.value.active)
    ensures forall s :: r.Ok? && HoldsStr(item, "pulloption", s) ==> r.value.pulloption == s
    ensures forall s :: r.Ok? && HoldsStr(item, "username", s) ==> r.value.username == s
    ensures forall s :: r.Ok? && HoldsStr(item, "email", s) ==> r.value.email == s
    ensures forall s :: r.Ok? && HoldsStr(item, "baseaddress", s) ==> r.value.baseaddress == s
    ensures forall s :: r.Ok? && HoldsStr(item, kindKey, s) ==> r.value.provider == s
    ensures forall s :: r.Ok? && HoldsStr(item, "token", s) ==> r.value.token == s
    ensures forall s :: r.Ok? && HoldsStr(item, "targetbasepath", s) ==> r.value.targetbasepath == s
  {
    if !HasFields(kindKey, item) then Panic
    else
      Ok(Profile(
        BoolField(item, "active"),
        StrField(item, "pulloption"),
        StrField(item, "username"),
        StrField(item, "email"),
        StrField(item, "baseaddress"),
        StrField(item, kindKey),
        StrField(item, "token"),
        StrField(item, "targetbasepath")))
  }

  /** `load_profiles`: one profile per top-level key of the document, read
      from that entry alone; an entry that cannot be indexed panics, whatever
      the order the entries are visited in. */
  function LoadProfiles(kindKey: string, doc: Doc): (r: Run<map<string, Profile>>)
    ensures r.Ok? <==> forall k :: k in doc ==> LoadProfile(kindKey, doc[k]).Ok?
    ensures !r.Ok? ==> r == Panic
    ensures r.Ok? ==> r.value.Keys == doc.Keys
    ensures r.Ok? ==> forall k :: k in doc ==> Ok(r.value[k]) == LoadProfile(kindKey, doc[k])
  {
    if forall k :: k in doc ==> HasFields(kindKey, doc[k]) then
      Ok(map k | k in doc :: LoadProfile(kindKey, doc[k]).value)
    else Panic
  }

  /** An entry that holds every field, but a value of another type in one,
      loads that field's default: `false` for `active`, `""` for the
      strings. A missing field or a plain value panics instead. */
  lemma LoadDefaults(kindKey: string, item: Item)
    ensures item.Plain? ==> LoadProfile(kindKey, item) == Panic
    ensures forall f :: f in FieldNames(kindKey) && Lookup(item, f).None? ==> LoadProfile(kindKey, item) == Panic
    ensures var r := LoadProfile(kindKey, item);
      r.Ok? && (forall b :: Lookup(item, "active") != Some(Bool(b))) ==> !r.value.active
    ensures var r := LoadProfile(kindKey, item);
      r.Ok? && (forall s :: !HoldsStr(item, "pulloption", s)) ==> r.value.pulloption == ""
    ensures var r := LoadProfile(kindKey, item);
      r.Ok? && (forall s :: !HoldsStr(item, "username", s)) ==> r.value.username == ""
    ensures var r := LoadProfile(kindKey, item);
      r.Ok? && (forall s :: !HoldsStr(item, "email", s)) ==> r.value.email == ""
    ensures var r := LoadProfile(kindKey, item);
      r.Ok? && (forall s :: !HoldsStr(item, "baseaddress", s)) ==> r.value.baseaddress == ""
    ensures var r := LoadProfile(kindKey, item);
      r.Ok? && (forall s :: !HoldsStr(item, kindKey, s)) ==> r.value.provider == ""
    ensures var r := LoadProfile(kindKey, item);
      r.Ok? && (forall s :: !HoldsStr(item, "token", s)) ==> r.value.token == ""
    ensures var r := LoadProfile(kindKey, item);
      r.Ok? && (forall s :: !HoldsStr(item, "targetbasepath", s)) ==> r.value.targetbasepath == ""
  {
    var keys := ["pulloption", "username", "email", "baseaddress", kindKey, "token", "targetbasepath"];
    forall i | 0 <= i < |keys|
      ensures (forall s :: !HoldsStr(item, keys[i], s)) ==> StrField(item, keys[i]) == ""
    {
      StrDefault(item, keys[i]);
    }
    assert keys[0] == "pulloption" && keys[1] == "username" && keys[2] == "email" && keys[3] == "baseaddress";
    assert keys[4] == kindKey && keys[5] == "token" && keys[6] == "targetbasepath";
  }

  /** An entry the first generation wrote stores the kind under
      `managertype`; the current store indexes `provider`, which the entry
      lacks, so loading it panics. */
  lemma LegacyEntryPanics(p: Profile)
    ensures LoadProfile(ProviderKey, MergeEntry(LegacyProviderKey, None, p)) == Panic
  {
    var e := MergeEntry(LegacyProviderKey, None, p);
    assert ProviderKey in FieldNames(ProviderKey);
    assert ProviderKey !in e.fields;
  }

  lemma StrDefault(item: Item, key: string)
    ensures (forall s :: !HoldsStr(item, key, s)) ==> StrField(item, key) == ""
  {
    if Lookup(item, key).Some? && Lookup(item, key).value.Str? {
      assert HoldsStr(item, key, Lookup(item, key).value.s);
    }
  }

  /** An inline table is read like a standard one. */
  lemma InlineReadAsTable(kindKey: string, fields: map<string, Value>)
    ensures LoadProfile(kindKey, InlineTable(fields)) == LoadProfile(kindKey, Table(fields))
  {
    forall key | true
      ensures Lookup(InlineTable(fields), key) == Lookup(Table(fields), key)
    {
    }
  }

  /** The eight fields `save_config` writes for a profile. */
  function ProfileFields(kindKey: string, p: Profile): map<string, Value> {
    map[
      "active" := Bool(p.active),
      "pulloption" := Str(p.pulloption),
      "username" := Str(p.username),
      "email" := Str(p.email),
      "baseaddress" := Str(p.baseaddress),
      "targetbasepath" := Str(p.targetbasepath),
      kindKey := Str(p.provider),
      "token" := Str(p.token)]
  }

  /** What `save_config` makes of the entry `prior` for a profile: an existing
      table keeps its other fields and has the eight overwritten; anything
      else (no entry, an inline table, which is not a standard table, or a
      plain value) is replaced by a fresh standard table. */
  function MergeEntry(kindKey: string, prior: Option<Item>, p: Profile): Item {
    match prior
    case Some(Table(f)) => Table(f + ProfileFields(kindKey, p))
    case _ => Table(ProfileFields(kindKey, p))
  }

  /** The document `save_config` writes: the entries of the profiles that
      remain, each merged with its profile. */
  function Merge(kindKey: string, doc: Doc, ps: map<string, Profile>): (r: Doc)
    ensures r.Keys == ps.Keys
  {
    map k | k in ps :: MergeEntry(kindKey, if k in doc then Some(doc[k]) else None, ps[k])
  }

  /** After the merge every entry is a table holding its profile's eight
      fields, and the fields of an existing table that are not among them are
      kept. */
  lemma MergeFields(kindKey: string, doc: Doc, ps: map<string, Profile>, k: string)
    requires k in ps
    ensures Merge(kindKey, doc, ps)[k].Table?
    ensures ProfileFields(kindKey, ps[k]).Items <= Merge(kindKey, doc, ps)[k].fields.Items
    ensures k in doc && doc[k].Table? ==>
      forall f :: f in doc[k].fields && f !in ProfileFields(kindKey, ps[k]) ==>
        f in Merge(kindKey, doc, ps)[k].fields && Merge(kindKey, doc, ps)[k].fields[f] == doc[k].fields[f]
  {
  }

  /** A merged entry holds exactly the written value under each of the
      eight field names. */
  lemma LookupMerged(kindKey: string, prior: Option<Item>, p: Profile, key: string)
    requires key in ProfileFields(kindKey, p)
    ensures Lookup(MergeEntry(kindKey, prior, p), key) == Some(ProfileFields(kindKey, p)[key])
  {
  }

  /** Loading a merged entry gives back the profile that was merged in. */
  lemma LoadMergedEntry(kindKey: string, prior: Option<Item>, p: Profile)
    requires KindKeyOk(kindKey)
    ensures LoadProfile(kindKey, MergeEntry(kindKey, prior, p)) == Ok(p)
  {
    var f := ProfileFields(kindKey, p);
    assert FieldNames(kindKey) == f.Keys;
    LookupMerged(kindKey, prior, p, "active");
    LookupMerged(kindKey, prior, p, "pulloption");
    LookupMerged(kindKey, prior, p, "username");
    LookupMerged(kindKey, prior, p, "email");
    LookupMerged(kindKey, prior, p, "baseaddress");
    LookupMerged(kindKey, prior, p, "targetbasepath");
    LookupMerged(kindKey, prior, p, kindKey);
    LookupMerged(kindKey, prior, p, "token");
    assert f["active"] == Bool(p.active);
    assert f["pulloption"] == Str(p.pulloption);
    assert f["username"] == Str(p.username);
    assert f["email"] == Str(p.email);
    assert f["baseaddress"] == Str(p.baseaddress);
    assert f["targetbasepath"] == Str(p.targetbasepath);
    assert f[kindKey] == Str(p.provider);
    assert f["token"] == Str(p.token);
  }

  /** Loading what `save_config` wrote gives back exactly the saved profiles:
      the merge loses nothing and keeps nothing that was deleted. */
  lemma LoadAfterMerge(kindKey: string, doc: Doc, ps: map<string, Profile>)
    requires KindKeyOk(kindKey)
    ensures LoadProfiles(kindKey, Merge(kindKey, doc, ps)) == Ok(ps)
  {
    var r := Merge(kindKey, doc, ps);
    forall k | k in ps
      ensures LoadProfile(kindKey, r[k]) == Ok(ps[k])
    {
      LoadMergedEntry(kindKey, if k in doc then Some(doc[k]) else None, ps[k]);
    }
    LoadEvery(kindKey, r, ps);
  }

  /** A document whose every entry loads to the profile of the same key
      loads to those profiles. */
  lemma LoadEvery(kindKey: string, doc: Doc, ps: map<string, Profile>)
    requires doc.Keys == ps.Keys
    requires forall k :: k in doc ==> LoadProfile(kindKey, doc[k]) == Ok(ps[k])
    ensures LoadProfiles(kindKey, doc) == Ok(ps)
  {
    var m := map k | k in doc :: LoadProfile(kindKey, doc[k]).value;
    assert m == ps;
  }

  /** `activate_profile`'s update: `active` becomes `key == choice` and every
      other field stays. */
  function Activated(m: map<string, Profile>, choice: string): (r: map<string, Profile>)
    ensures r.Keys == m.Keys
  {
    map k | k in m :: m[k].(active := k == choice)
  }

  /** After activation at most one profile is active, and exactly one (the
      chosen one) when `choice` is a key. */
  lemma ActivatedOnlyChoice(m: map<string, Profile>, choice: string)
    ensures forall k :: k in m ==> (Activated(m, choice)[k].active <==> k == choice)
    ensures forall k :: k in m ==> Activated(m, choice)[k] == m[k].(active := Activated(m, choice)[k].active)
    ensures choice !in m ==> forall k :: k in m ==> !Activated(m, choice)[k].active
  {
  }

  /** `values().find(|p| p.active)` over the iteration order, or the process
      exits when no profile is active. */
  function FirstActive(order: seq<string>, m: map<string, Profile>): (r: Run<Profile>)
    ensures r != Panic
    ensures r.Ok? ==> r.value.active && exists k :: k in order && k in m && m[k] == r.value
    ensures r == Exit <==> forall k :: k in order && k in m ==> !m[k].active
  {
    if order == [] then Exit
    else if order[0] in m && m[order[0]].active then Ok(m[order[0]])
    else
      var r := FirstActive(order[1..], m);
      assert forall k :: k in order[1..] ==> k in order;
      assert forall k :: k in order && k != order[0] ==> k in order[1..];
      r
  }

  /** `find_profiles_by_provider`: the keys, in iteration order, whose
      provider occurs in the remote URL. */
  function ProvidersIn(order: seq<string>, m: map<string, Profile>, url: string): (r: seq<string>)
    ensures forall k :: k in r <==> k in order && k in m && Contains(url, m[k].provider)
    ensures NoDup(order) ==> NoDup(r)
    ensures |r| <= |order|
  {
    if order == [] then []
    else
      var rest := ProvidersIn(order[1..], m, url);
      assert forall k :: k in order <==> k == order[0] || k in order[1..];
      if order[0] in m && Contains(url, m[order[0]].provider) then
        assert NoDup(order) ==> order[0] !in order[1..];
        [order[0]] + rest
      else rest
  }

  /** An empty provider occurs in every URL, so its profile always matches. */
  lemma EmptyProviderMatches(url: string)
    ensures Contains(url, "")
  {
    assert IsPrefix("", url);
  }

  /** Once `choice` is activated, the active profile is the chosen one,
      whatever the iteration order. */
  lemma {:induction false} ActiveAfterActivate(order: seq<string>, m: map<string, Profile>, choice: string)
    requires choice in m && choice in order
    ensures FirstActive(order, Activated(m, choice)) == Ok(m[choice].(active := true))
  {
    var a := Activated(m, choice);
    if order[0] != choice {
      assert choice in order[1..];
      ActiveAfterActivate(order[1..], m, choice);
    }
  }

  /** Deleting the only active profile leaves none: the next `active_profile`
      ends the process. */
  lemma DeleteActive(order: seq<string>, m: map<string, Profile>, choice: string)
    requires forall k :: k in m && k != choice ==> !m[k].active
    ensures FirstActive(order, m - {choice}) == Exit
  {
  }

  /** The store: the profiles, their iteration order, and the configuration
      file's document. */
  class Store {
    const kindKey: string
    var profiles: map<string, Profile>
    var order: seq<string>
    var doc: Doc

    ghost predicate Valid()
      reads this
    {
      KindKeyOk(kindKey) && Enumerates(order, profiles.Keys)
    }

    /** The store over a document that loads. */
    constructor (kindKey: string, doc: Doc, order: seq<string>)
      requires KindKeyOk(kindKey) && Enumerates(order, doc.Keys) && LoadProfiles(kindKey, doc).Ok?
      ensures Valid() && this.kindKey == kindKey
      ensures this.doc == doc && this.order == order && Ok(profiles) == LoadProfiles(kindKey, doc)
    {
      this.kindKey := kindKey;
      this.doc := doc;
      this.order := order;
      this.profiles := LoadProfiles(kindKey, doc).value;
    }

    /** `Config::new` on an existing configuration file: the store of its
        profiles, or a panic when an entry cannot be loaded. */
    static method Open(kindKey: string, doc: Doc, order: seq<string>) returns (r: Run<Store>)
      requires KindKeyOk(kindKey) && Enumerates(order, doc.Keys)
      ensures r.Ok? <==> LoadProfiles(kindKey, doc).Ok?
      ensures !r.Ok? ==> r == Panic
      ensures r.Ok? ==> fresh(r.value) && r.value.Valid() && r.value.doc == doc && r.value.order == order
      ensures r.Ok? ==> Ok(r.value.profiles) == LoadProfiles(kindKey, doc)
    {
      var loaded := LoadProfiles(kindKey, doc);
      if !loaded.Ok? {
        return Panic;
      }
      var store := new Store(kindKey, doc, order);
      r := Ok(store);
    }

    /** `active_profile`. */
    function ActiveProfile(): (r: Run<Profile>)
      reads this
      requires Valid()
      ensures r != Panic
      ensures r.Ok? ==> r.value.active && r.value in profiles.Values
      ensures r == Exit <==> forall k :: k in profiles ==> !profiles[k].active
    {
      FirstActive(order, profiles)
    }

    /** `find_profiles_by_provider`: exactly the keys whose provider occurs in
      `url`, each once. */
    function FindProfilesByProvider(url: string): (r: seq<string>)
      reads this
      requires Valid()
      ensures forall k :: k in r <==> k in profiles && Contains(url, profiles[k].provider)
      ensures NoDup(r)
    {
      ProvidersIn(order, profiles, url)
    }

    /** `save_config`: drop the entries of deleted profiles, then update or
        create the entry of every profile. */
    method SaveConfig()
      modifies this
      requires Valid()
      ensures Valid() && profiles == old(profiles) && order == old(order)
      ensures doc == Merge(kindKey, old(doc), profiles)
    {
      var d := RemoveDeleted(doc, profiles.Keys);
      d := UpdateOrCreate(kindKey, doc, d, profiles);
      doc := d;
    }

    /** `activate_profile`: exactly the chosen profile becomes active, nothing
        else about the profiles changes, and the file is rewritten. */
    method ActivateProfile(choice: string)
      modifies this
      requires Valid()
      ensures Valid() && order == old(order)
      ensures profiles == Activated(old(profiles), choice)
      ensures doc == Merge(kindKey, old(doc), profiles)
    {
      var i := 0;
      while i < |order|
        invariant 0 <= i <= |order| && order == old(order) && doc == old(doc)
        invariant profiles.Keys == old(profiles).Keys
        invariant forall k :: k in profiles ==>
          profiles[k] == if k in order[..i] then old(profiles)[k].(active := k == choice) else old(profiles)[k]
      {
        var key := order[i];
        profiles := profiles[key := profiles[key].(active := key == choice)];
        assert order[..i + 1] == order[..i] + [key];
        i := i + 1;
      }
      assert order[..|order|] == order;
      SaveConfig();
    }

    /** `delete_profile`: only `choice` goes (nothing, if it is not a key),
        and the file is rewritten without it. */
    method DeleteProfile(choice: string)
      modifies this
      requires Valid()
      ensures Valid()
      ensures profiles == old(profiles) - {choice}
      ensures doc == Merge(kindKey, old(doc), profiles)
    {
      profiles := profiles - {choice};
      order := Without(order, choice);
      SaveConfig();
    }
  }

  /** The first loop of `save_config`: every entry whose key is no longer a
      profile is removed, the others are kept as they are. */
  method RemoveDeleted(doc: Doc, keep: set<string>) returns (d: Doc)
    ensures forall k :: k in d <==> k in doc && k in keep
    ensures forall k :: k in d ==> d[k] == doc[k]
  {
    d := doc;
    var existing := doc.Keys;
    while existing != {}
      invariant existing <= doc.Keys
      invariant forall k :: k in d <==> k in doc && (k in keep || k in existing)
      invariant forall k :: k in d ==> d[k] == doc[k]
      decreases existing
    {
      var key :| key in existing;
      if key !in keep {
        d := d - {key};
      }
      existing := existing - {key};
    }
  }

  /** The second loop of `save_config`: each profile's entry is updated or
      created, in the map's iteration order (any order gives the same
      document, since every key is written once). */
  method UpdateOrCreate(kindKey: string, doc: Doc, d0: Doc, ps: map<string, Profile>) returns (d: Doc)
    requires forall k :: k in d0 <==> k in doc && k in ps
    requires forall k :: k in d0 ==> d0[k] == doc[k]
    ensures d == Merge(kindKey, doc, ps)
  {
    d := d0;
    ghost var target := Merge(kindKey, doc, ps);
    var remaining := ps.Keys;
    while remaining != {}
      invariant remaining <= ps.Keys
      invariant forall k :: k in d <==> k in ps && (k in doc || k !in remaining)
      invariant forall k :: k in d ==> d[k] == if k in remaining then doc[k] else target[k]
      decreases remaining
    {
      var key :| key in remaining;
      d := d[key := MergeEntry(kindKey, if key in d then Some(d[key]) else None, ps[key])];
      remaining := remaining - {key};
    }
  }

  /** The iteration order once `x` is removed from the map. */
  function Without(s: seq<string>, x: string): (r: seq<string>)
    ensures forall k :: k in r <==> k in s && k != x
    ensures NoDup(s) ==> NoDup(r)
  {
    if s == [] then []
    else
      var rest := Without(s[1..], x);
      assert forall k :: k in s <==> k == s[0] || k in s[1..];
      if s[0] == x then rest
      else
        assert NoDup(s) ==> s[0] !in s[1..];
        [s[0]] + rest
  }
}
