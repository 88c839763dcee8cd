/**
 * The client registry loader `carregar_mapa_clientes`: it decodes the
 * registry's text, takes its list of entries, and maps every client's id to
 * its category and upper-cased name.
 */
module Clients {
  import opened Wrappers
  import opened PyJson
  import opened PyText
  import opened Ingest

  /** A client's category, stored by the source as the text "P\U{fa}blico"
      or "Privado". */
  datatype Category = Public | Private

  /** The `{'cat', 'nome'}` record stored per client. */
  datatype ClientInfo = ClientInfo(cat: Category, name: string)

  /** A client is private exactly when its organisation is an object whose
      `id` equals 4. */
  function CategoryOf(org: Json): Category {
    if org.JObj? && EqualsFour(Get(org.fields, "id")) then Private else Public
  }

  /** What one registry entry does to the map: nothing, one insertion, or an
      exception that ends the loop. */
  datatype EntryOutcome = Skip | Put(key: Key, info: ClientInfo) | Raise

  /** One pass of the entry loop. A non-object entry and an entry with a
      falsy id are skipped; `nome` that is present but not a string makes
      `.upper()` raise, and an id that is a list or dict cannot be hashed. */
  function ClientEntry(c: Json): EntryOutcome {
    if !c.JObj? then Skip
    else
      var id := Get(c.fields, "id");
      if !Truthy(id) then Skip
      else
        var nome := GetOr(c.fields, "nome", JStr(""));
        if !nome.JStr? then Raise
        else match KeyOf(id)
          case None => Raise
          case Some(k) => Put(k, ClientInfo(CategoryOf(Get(c.fields, "organizacao")), Upper(nome.s)))
  }

  /** Entry `c` stores a record under key `k`. */
  predicate Puts(c: Json, k: Key) {
    ClientEntry(c).Put? && ClientEntry(c).key == k
  }

  /** The entries of the decoded registry: the value itself when it is a
      list, the `items` of an object when they are a list, else none. */
  function ClientList(data: Json): seq<Json> {
    var lista := if data.JObj? then GetOr(data.fields, "items", JArr([])) else data;
    if lista.JArr? then lista.items else []
  }

  /** The map after running the entry loop over `xs`, starting from `m`; the
      first exception ends the loop and keeps what was stored so far. */
  function FoldEntries(m: map<Key, ClientInfo>, xs: seq<Json>): map<Key, ClientInfo>
    decreases |xs|
  {
    if xs == [] then m
    else match ClientEntry(xs[0])
      case Skip => FoldEntries(m, xs[1..])
      case Put(k, info) => FoldEntries(m[k := info], xs[1..])
      case Raise => m
  }

  /** The index of the first entry that raises, or `|xs|`. */
  function FirstRaise(xs: seq<Json>): (n: nat)
    ensures n <= |xs|
    ensures forall i :: 0 <= i < n ==> !ClientEntry(xs[i]).Raise?
    ensures n < |xs| ==> ClientEntry(xs[n]).Raise?
  {
    if xs == [] || ClientEntry(xs[0]).Raise? then 0 else 1 + FirstRaise(xs[1..])
  }

  /** A reference definition of the map by key: the record of the last entry
      of `xs` that stores key `k`, if any. */
  function LatestFor(xs: seq<Json>, k: Key): Option<ClientInfo> {
    if xs == [] then None
    else match LatestFor(xs[1..], k)
      case Some(info) => Some(info)
      case None => if Puts(xs[0], k) then Some(ClientEntry(xs[0]).info) else None
  }

  /** The map `carregar_mapa_clientes` returns; `file` is the registry's text,
      `None` when the file is missing or cannot be read. */
  function ClientMap(rt: Runtime, file: Option<string>): map<Key, ClientInfo> {
    match file
    case None => map[]
    case Some(content) => FoldEntries(map[], ClientList(BestEffort(rt, content)))
  }

  method LoadClientMap(rt: Runtime, file: Option<string>) returns (mapa: map<Key, ClientInfo>)
    ensures mapa == ClientMap(rt, file)
  {
    mapa := map[];
    if file.None? {
      return;
    }
    var data := DecodeBestEffort(rt, file.value);
    var lista := ClientList(data);
    for i := 0 to |lista|
      invariant FoldEntries(mapa, lista[i..]) == ClientMap(rt, file)
    {
      var c := lista[i];
      assert lista[i..] == [c] + lista[i + 1..];
      if !c.JObj? {
        continue;
      }
      var cliId := Get(c.fields, "id");
      var org := Get(c.fields, "organizacao");
      var cat := Public;
      if org.JObj? && EqualsFour(Get(org.fields, "id")) {
        cat := Private;
      }
      if Truthy(cliId) {
        var nome := GetOr(c.fields, "nome", JStr(""));
        if !nome.JStr? {
          // `.upper()` raises; `except: pass` keeps the map built so far.
          break;
        }
        var key := KeyOf(cliId);
        if key.None? {
          // The id cannot be hashed.
          break;
        }
        mapa := mapa[key.value := ClientInfo(cat, Upper(nome.s))];
      }
    }
  }

  // ---------------------------------------------------------------------
  // Properties

  /** The category rule: private if and only if the organisation is an object
      holding an `id` equal to 4; public otherwise, also when `organizacao` is
      missing or is not an object. */
  lemma CategoryRule(org: Json)
    ensures CategoryOf(org) == Private <==>
      org.JObj? && "id" in org.fields && EqualsFour(org.fields["id"])
    ensures !org.JObj? ==> CategoryOf(org) == Public
  {
  }

  /** Which entries store a record, under which key, and what record. */
  lemma ClientEntryRule(c: Json)
    ensures ClientEntry(c).Skip? <==> !c.JObj? || !Truthy(Get(c.fields, "id"))
    ensures ClientEntry(c).Put? <==>
      c.JObj? && Truthy(Get(c.fields, "id")) && KeyOf(Get(c.fields, "id")).Some?
      && GetOr(c.fields, "nome", JStr("")).JStr?
    ensures ClientEntry(c).Put? ==>
      ClientEntry(c).key == KeyOf(Get(c.fields, "id")).value
      && ClientEntry(c).info.cat == CategoryOf(Get(c.fields, "organizacao"))
      && ClientEntry(c).info.name == Upper(GetOr(c.fields, "nome", JStr("")).s)
  {
  }

  /** The loop stops at the first entry that raises, keeping the map built so
      far; nothing after that entry has any effect. */
  lemma {:induction false} FoldEntriesStops(m: map<Key, ClientInfo>, xs: seq<Json>)
    decreases |xs|
    ensures FoldEntries(m, xs) == FoldEntries(m, xs[..FirstRaise(xs)])
  {
    if xs != [] && !ClientEntry(xs[0]).Raise? {
      assert xs[..FirstRaise(xs)][1..] == xs[1..][..FirstRaise(xs[1..])];
      match ClientEntry(xs[0])
      case Skip => FoldEntriesStops(m, xs[1..]);
      case Put(k, info) => FoldEntriesStops(m[k := info], xs[1..]);
    }
  }

  /** Over entries that do not raise, the map holds a key exactly when the
      starting map or some entry stores it, and a later entry with the same id
      overwrites an earlier one. */
  lemma {:induction false} FoldEntriesByKey(m: map<Key, ClientInfo>, xs: seq<Json>, k: Key)
    requires forall i :: 0 <= i < |xs| ==> !ClientEntry(xs[i]).Raise?
    decreases |xs|
    ensures k in FoldEntries(m, xs) <==> k in m || LatestFor(xs, k).Some?
    ensures LatestFor(xs, k).Some? ==> FoldEntries(m, xs)[k] == LatestFor(xs, k).value
    ensures LatestFor(xs, k).None? && k in m ==> FoldEntries(m, xs)[k] == m[k]
  {
    if xs != [] {
      match ClientEntry(xs[0])
      case Skip => FoldEntriesByKey(m, xs[1..], k);
      case Put(k0, info) => FoldEntriesByKey(m[k0 := info], xs[1..], k);
    }
  }

  /** `LatestFor` is the record of the last entry storing the key. */
  lemma {:induction false} LatestForIsLast(xs: seq<Json>, k: Key)
    ensures LatestFor(xs, k).None? <==> forall i :: 0 <= i < |xs| ==> !Puts(xs[i], k)
    ensures LatestFor(xs, k).Some? ==>
      exists i :: 0 <= i < |xs| && Puts(xs[i], k) && ClientEntry(xs[i]).info == LatestFor(xs, k).value
        && forall j :: i < j < |xs| ==> !Puts(xs[j], k)
  {
    if xs != [] {
      LatestForIsLast(xs[1..], k);
      var rest := xs[1..];
      if LatestFor(rest, k).Some? {
        var i :| 0 <= i < |rest| && Puts(rest[i], k) && ClientEntry(rest[i]).info == LatestFor(rest, k).value
          && forall j :: i < j < |rest| ==> !Puts(rest[j], k);
        assert xs[i + 1] == rest[i];
        assert forall j :: i + 1 < j < |xs| ==> xs[j] == rest[j - 1];
      } else if Puts(xs[0], k) {
        assert forall j :: 0 < j < |xs| ==> xs[j] == rest[j - 1];
      } else {
        assert forall j :: 0 < j < |xs| ==> xs[j] == rest[j - 1];
      }
    }
  }

  /** What the loaded map holds. A missing or unreadable registry gives the
      empty map. Otherwise, with `entries` the registry's entries and `n` the
      index of the first one that raises: key `k` is in the map exactly when
      one of the first `n` entries stores it, and its record is that of the
      last of those entries storing it. */
  lemma ClientMapContents(rt: Runtime, file: Option<string>, k: Key)
    ensures file.None? ==> ClientMap(rt, file) == map[]
    ensures file.Some? ==>
      var entries := ClientList(BestEffort(rt, file.value));
      var before := entries[..FirstRaise(entries)];
      (k in ClientMap(rt, file) <==> exists i :: 0 <= i < |before| && Puts(before[i], k))
      && (k in ClientMap(rt, file) ==>
        exists i :: 0 <= i < |before| && Puts(before[i], k)
          && ClientMap(rt, file)[k] == ClientEntry(before[i]).info
          && forall j :: i < j < |before| ==> !Puts(before[j], k))
  {
    if file.Some? {
      var entries := ClientList(BestEffort(rt, file.value));
      var before := entries[..FirstRaise(entries)];
      FoldEntriesStops(map[], entries);
      FoldEntriesByKey(map[], before, k);
      LatestForIsLast(before, k);
    }
  }

  /** Every stored name is already upper-case. */
  lemma {:induction false} FoldEntriesNamesUpper(m: map<Key, ClientInfo>, xs: seq<Json>, k: Key)
    requires forall k' :: k' in m ==> Upper(m[k'].name) == m[k'].name
    requires k in FoldEntries(m, xs)
    decreases |xs|
    ensures Upper(FoldEntries(m, xs)[k].name) == FoldEntries(m, xs)[k].name
  {
    if xs != [] {
      match ClientEntry(xs[0])
      case Skip => FoldEntriesNamesUpper(m, xs[1..], k);
      case Put(k0, info) =>
        UpperIdempotent(GetOr(xs[0].fields, "nome", JStr("")).s);
        FoldEntriesNamesUpper(m[k0 := info], xs[1..], k);
      case Raise =>
    }
  }

  /** The registry's shapes: a list is taken as it is, an object contributes
      its `items` when they are a list, and anything else contributes nothing. */
  lemma ClientListShape(data: Json)
    ensures data.JArr? ==> ClientList(data) == data.items
    ensures data.JObj? && "items" in data.fields && data.fields["items"].JArr? ==>
      ClientList(data) == data.fields["items"].items
    ensures data.JObj? && !("items" in data.fields && data.fields["items"].JArr?) ==>
      ClientList(data) == []
    ensures !data.JArr? && !data.JObj? ==> ClientList(data) == []
  {
  }
}
