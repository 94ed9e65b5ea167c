/** `render_toml`: a service list becomes the `[server.services.<name>]` blocks of the
    rathole config through a sorted map, so the file depends on the set of services and
    not on the order a concurrent map yields them. */
module RatholeConfig {

  import opened Common

  datatype Transport = Tcp | Udp

  datatype Service = Service(name: string, token: string, bindAddr: string, transport: Option<Transport>)

  datatype Entry = Entry(token: string, bindAddr: string, serviceType: Option<string>)

  datatype Block = Block(name: string, entry: Entry)

  /** TCP is the default and emits no `type` key. */
  function EntryOf(s: Service): Entry {
    Entry(s.token, s.bindAddr, if s.transport == Some(Udp) then Some("udp") else None)
  }

  /** The order of `&str` keys. */
  predicate Less(a: string, b: string) {
    if |b| == 0 then false
    else if |a| == 0 then true
    else a[0] < b[0] || (a[0] == b[0] && Less(a[1..], b[1..]))
  }

  lemma {:induction false} LessIsTotal(a: string, b: string)
    ensures a == b || Less(a, b) || Less(b, a)
    ensures !(Less(a, b) && Less(b, a)) && !(a == b && Less(a, b))
  {
    if |a| > 0 && |b| > 0 {
      LessIsTotal(a[1..], b[1..]);
      assert a == [a[0]] + a[1..] && b == [b[0]] + b[1..];
    }
  }

  lemma {:induction false} LessIsTransitive(a: string, b: string, c: string)
    requires Less(a, b) && Less(b, c)
    ensures Less(a, c)
  {
    if |a| > 0 && a[0] == b[0] == c[0] {
      LessIsTransitive(a[1..], b[1..], c[1..]);
    }
  }

  /** `BTreeMap::insert`: keep the order, replace an equal key. */
  function Insert(blocks: seq<Block>, b: Block): seq<Block> {
    if |blocks| == 0 then [b]
    else if Less(b.name, blocks[0].name) then [b] + blocks
    else if b.name == blocks[0].name then [b] + blocks[1..]
    else [blocks[0]] + Insert(blocks[1..], b)
  }

  /** The iterator is collected left to right, so a later duplicate wins. */
  function Render(services: seq<Service>): seq<Block> {
    if |services| == 0 then []
    else
      var last := services[|services| - 1];
      Insert(Render(services[..|services| - 1]), Block(last.name, EntryOf(last)))
  }

  /** The reference meaning of a service list. */
  function EntryMap(services: seq<Service>): map<string, Entry> {
    if |services| == 0 then map[]
    else
      var last := services[|services| - 1];
      EntryMap(services[..|services| - 1])[last.name := EntryOf(last)]
  }

  /** The meaning of a rendered file. */
  function Meaning(blocks: seq<Block>): map<string, Entry> {
    if |blocks| == 0 then map[]
    else Meaning(blocks[1..])[blocks[0].name := blocks[0].entry]
  }

  ghost predicate Ascending(blocks: seq<Block>) {
    forall i, j :: 0 <= i < j < |blocks| ==> Less(blocks[i].name, blocks[j].name)
  }

  lemma {:induction false} MeaningKeys(blocks: seq<Block>)
    ensures forall n :: n in Meaning(blocks) <==> exists i :: 0 <= i < |blocks| && blocks[i].name == n
  {
    if |blocks| > 0 {
      MeaningKeys(blocks[1..]);
      forall n
        ensures n in Meaning(blocks) <==> exists i :: 0 <= i < |blocks| && blocks[i].name == n
      {
        if n in Meaning(blocks[1..]) {
          var i :| 0 <= i < |blocks[1..]| && blocks[1..][i].name == n;
          assert blocks[i + 1].name == n;
        }
        if i :| 0 <= i < |blocks| && blocks[i].name == n {
          if i > 0 { assert blocks[1..][i - 1].name == n; }
        }
      }
    }
  }

  lemma {:induction false} InsertMeaning(blocks: seq<Block>, b: Block)
    ensures Meaning(Insert(blocks, b)) == Meaning(blocks)[b.name := b.entry]
  {
    if |blocks| == 0 {
    } else if Less(b.name, blocks[0].name) {
      assert ([b] + blocks)[1..] == blocks;
    } else if b.name == blocks[0].name {
      assert ([b] + blocks[1..])[1..] == blocks[1..];
    } else {
      InsertMeaning(blocks[1..], b);
      assert ([blocks[0]] + Insert(blocks[1..], b))[1..] == Insert(blocks[1..], b);
    }
  }

  lemma {:induction false} InsertKeepsOrder(blocks: seq<Block>, b: Block)
    requires Ascending(blocks)
    ensures Ascending(Insert(blocks, b))
  {
    if |blocks| == 0 {
    } else if Less(b.name, blocks[0].name) {
      forall j | 0 <= j < |blocks|
        ensures Less(b.name, blocks[j].name)
      {
        if j > 0 { LessIsTransitive(b.name, blocks[0].name, blocks[j].name); }
      }
    } else if b.name != blocks[0].name {
      InsertKeepsOrder(blocks[1..], b);
      LessIsTotal(b.name, blocks[0].name);
      InsertedIsAbove(blocks[1..], b, blocks[0].name);
    }
  }

  lemma InsertedIsAbove(blocks: seq<Block>, b: Block, floor: string)
    requires Less(floor, b.name) && forall i :: 0 <= i < |blocks| ==> Less(floor, blocks[i].name)
    ensures forall k :: 0 <= k < |Insert(blocks, b)| ==> Less(floor, Insert(blocks, b)[k].name)
  {
    InsertMeaning(blocks, b);
    MeaningKeys(blocks);
    MeaningKeys(Insert(blocks, b));
    forall k | 0 <= k < |Insert(blocks, b)|
      ensures Less(floor, Insert(blocks, b)[k].name)
    {
      assert Insert(blocks, b)[k].name in Meaning(Insert(blocks, b));
    }
  }

  /** The rendering is strictly ascending and means exactly the list's last-wins map. */
  lemma {:induction false} RenderMeansMap(services: seq<Service>)
    ensures Ascending(Render(services)) && Meaning(Render(services)) == EntryMap(services)
  {
    if |services| > 0 {
      var last := services[|services| - 1];
      RenderMeansMap(services[..|services| - 1]);
      InsertKeepsOrder(Render(services[..|services| - 1]), Block(last.name, EntryOf(last)));
      InsertMeaning(Render(services[..|services| - 1]), Block(last.name, EntryOf(last)));
    }
  }

  lemma SameHead(a: seq<Block>, b: seq<Block>)
    requires Ascending(a) && Ascending(b) && Meaning(a) == Meaning(b) && |a| > 0
    ensures |b| > 0 && a[0].name == b[0].name
  {
    MeaningKeys(a);
    MeaningKeys(b);
    assert a[0].name in Meaning(a);
    var j :| 0 <= j < |b| && b[j].name == a[0].name;
    assert b[0].name in Meaning(b);
    var i :| 0 <= i < |a| && a[i].name == b[0].name;
    LessIsTotal(a[0].name, b[0].name);
    assert i == 0 && j == 0;
  }

  /** An ascending block list is determined by its meaning. */
  lemma {:induction false} AscendingIsUnique(a: seq<Block>, b: seq<Block>)
    requires Ascending(a) && Ascending(b) && Meaning(a) == Meaning(b)
    ensures a == b
  {
    if |a| > 0 {
      SameHead(a, b);
      HeadNotInTail(a);
      HeadNotInTail(b);
      TailMeaning(a);
      TailMeaning(b);
      AscendingIsUnique(a[1..], b[1..]);
      assert a == [a[0]] + a[1..] && b == [b[0]] + b[1..];
    } else if |b| > 0 {
      SameHead(b, a);
    }
  }

  lemma HeadNotInTail(a: seq<Block>)
    requires Ascending(a) && |a| > 0
    ensures a[0].name !in Meaning(a[1..])
  {
    MeaningKeys(a[1..]);
    forall k | 0 <= k < |a[1..]|
      ensures a[1..][k].name != a[0].name
    {
      assert Less(a[0].name, a[k + 1].name);
      LessIsTotal(a[0].name, a[k + 1].name);
    }
  }

  lemma RemoveInserted<K, V>(m: map<K, V>, k: K, v: V)
    requires k !in m
    ensures m[k := v] - {k} == m
  {
  }

  lemma TailMeaning(a: seq<Block>)
    requires |a| > 0 && a[0].name !in Meaning(a[1..])
    ensures a[0].name in Meaning(a) && Meaning(a)[a[0].name] == a[0].entry
    ensures Meaning(a[1..]) == Meaning(a) - {a[0].name}
  {
    RemoveInserted(Meaning(a[1..]), a[0].name, a[0].entry);
  }

  /** Change detection: two service lists render to the same file if and only if they hold
      the same entries, whatever the order they were collected in. */
  lemma SameFileIffSameEntries(a: seq<Service>, b: seq<Service>)
    ensures Render(a) == Render(b) <==> EntryMap(a) == EntryMap(b)
  {
    RenderMeansMap(a);
    RenderMeansMap(b);
    if EntryMap(a) == EntryMap(b) {
      AscendingIsUnique(Render(a), Render(b));
    }
  }

  // ---------------------------------------------------------------- what a block says

  /** The last service of the name. */
  function Listed(list: seq<Service>, name: string): Option<Service> {
    if |list| == 0 then None
    else if list[|list| - 1].name == name then Some(list[|list| - 1])
    else Listed(list[..|list| - 1], name)
  }

  /** A block's keys, one by one: the service's token, its address, and a type for UDP only. */
  predicate Says(e: Entry, svc: Service) {
    && e.token == svc.token
    && e.bindAddr == svc.bindAddr
    && (e.serviceType == Some("udp") <==> svc.transport == Some(Udp))
    && (e.serviceType == None <==> svc.transport == None || svc.transport == Some(Tcp))
  }

  /** The file has one block for the name, and it says this, or it has none. */
  ghost predicate Shows(blocks: seq<Block>, name: string, value: Option<Service>) {
    match value
    case Some(svc) =>
      exists i :: 0 <= i < |blocks| && blocks[i].name == name && Says(blocks[i].entry, svc)
                  && forall j :: 0 <= j < |blocks| && blocks[j].name == name ==> j == i
    case None => forall i :: 0 <= i < |blocks| ==> blocks[i].name != name
  }

  lemma {:induction false} ListedIsEntryMap(list: seq<Service>, name: string)
    ensures name in EntryMap(list) <==> Listed(list, name).Some?
    ensures name in EntryMap(list) ==> EntryMap(list)[name] == EntryOf(Listed(list, name).value)
  {
    if |list| > 0 {
      ListedIsEntryMap(list[..|list| - 1], name);
    }
  }

  lemma {:induction false} MeaningOfBlock(blocks: seq<Block>, i: nat)
    requires Ascending(blocks) && i < |blocks|
    ensures blocks[i].name in Meaning(blocks) && Meaning(blocks)[blocks[i].name] == blocks[i].entry
  {
    if i > 0 {
      LessIsTotal(blocks[0].name, blocks[i].name);
      MeaningOfBlock(blocks[1..], i - 1);
    }
  }

  lemma EntrySays(svc: Service)
    ensures Says(EntryOf(svc), svc)
  {
    match svc.transport
    case None =>
    case Some(Tcp) =>
    case Some(Udp) =>
  }

  /** Every name of the list has one block, with the fields of its last service, and no other
      name has any. */
  lemma RenderShows(list: seq<Service>, name: string)
    ensures Shows(Render(list), name, Listed(list, name))
  {
    var blocks := Render(list);
    RenderMeansMap(list);
    ListedIsEntryMap(list, name);
    MeaningKeys(blocks);
    if name in Meaning(blocks) {
      var i :| 0 <= i < |blocks| && blocks[i].name == name;
      MeaningOfBlock(blocks, i);
      forall j | 0 <= j < |blocks| && blocks[j].name == name
        ensures j == i
      {
        LessIsTotal(name, name);
      }
      EntrySays(Listed(list, name).value);
    }
  }

  lemma {:induction false} ListedIsLast(list: seq<Service>, k: nat)
    requires k < |list| && forall j :: k < j < |list| ==> list[j].name != list[k].name
    ensures Listed(list, list[k].name) == Some(list[k])
  {
    if k < |list| - 1 {
      ListedIsLast(list[..|list| - 1], k);
    }
  }

  /** The last service of each name is what the file shows for it, field by field. */
  lemma LastServiceIsShown(list: seq<Service>, k: nat)
    requires k < |list| && forall j :: k < j < |list| ==> list[j].name != list[k].name
    ensures Shows(Render(list), list[k].name, Some(list[k]))
  {
    ListedIsLast(list, k);
    RenderShows(list, list[k].name);
  }

  // ---------------------------------------------------------------- enumerations of a map

  /** `list` yields every service of the map once, in some order. */
  ghost predicate Enumerates(list: seq<Service>, services: map<string, Service>) {
    && (forall i, j :: 0 <= i < j < |list| ==> list[i].name != list[j].name)
    && (forall i :: 0 <= i < |list| ==> list[i].name in services && services[list[i].name] == list[i])
    && (forall n :: n in services ==> exists i :: 0 <= i < |list| && list[i].name == n)
  }

  function EntriesOf(services: map<string, Service>): map<string, Entry> {
    map n | n in services :: EntryOf(services[n])
  }

  lemma {:induction false} EntryMapOfDistinct(list: seq<Service>)
    requires forall i, j :: 0 <= i < j < |list| ==> list[i].name != list[j].name
    ensures forall i :: 0 <= i < |list| ==>
              list[i].name in EntryMap(list) && EntryMap(list)[list[i].name] == EntryOf(list[i])
    ensures forall n :: n in EntryMap(list) ==> exists i :: 0 <= i < |list| && list[i].name == n
  {
    if |list| > 0 {
      var rest := list[..|list| - 1];
      EntryMapOfDistinct(rest);
      forall i | 0 <= i < |list|
        ensures list[i].name in EntryMap(list) && EntryMap(list)[list[i].name] == EntryOf(list[i])
      {
        if i < |list| - 1 { assert rest[i] == list[i]; }
      }
      forall n | n in EntryMap(list)
        ensures exists i :: 0 <= i < |list| && list[i].name == n
      {
        if n in EntryMap(rest) {
          var i :| 0 <= i < |rest| && rest[i].name == n;
          assert list[i].name == n;
        } else {
          assert list[|list| - 1].name == n;
        }
      }
    }
  }

  /** Every enumeration of a service map renders to the same file. */
  lemma EnumerationDoesNotMatter(list: seq<Service>, services: map<string, Service>)
    requires Enumerates(list, services)
    ensures EntryMap(list) == EntriesOf(services)
  {
    EntryMapOfDistinct(list);
  }
}
