/**
 Per-message routing of the consumer's topic forwarder
 (blueprints/consumer/topic/extractor/main.py, _sanitize, _resolve_target and
 _forward) and the headers the producer's adaptor stamps
 (blueprints/producer/topic/adaptor/main.py). The forwarder keeps its last
 target in a field; each message's destination still depends only on that
 message's own headers.

 A header value is None when Kafka carries a null one. Python's lower() is
 modelled on ASCII, which is all that can spell the four header names used.
 */
module Routing {
  import opened Wrappers
  import opened Seqs

  predicate IsUpper(c: char) { 'A' <= c <= 'Z' }

  predicate IsPlain(c: char) { 'a' <= c <= 'z' || '0' <= c <= '9' }

  predicate IsAlnum(c: char) { IsUpper(c) || IsPlain(c) }

  function LowerChar(c: char): char {
    if IsUpper(c) then (c as int + 32) as char else c
  }

  function Lower(s: string): (r: string)
    ensures |r| == |s|
  {
    seq(|s|, i requires 0 <= i < |s| => LowerChar(s[i]))
  }

  /** re.sub("[^A-Za-z0-9]", "", s). */
  function KeepAlnum(s: string): (r: string)
    ensures forall c :: c in r ==> IsAlnum(c)
  {
    if s == "" then "" else (if IsAlnum(s[0]) then [s[0]] else "") + KeepAlnum(s[1..])
  }

  const UNKNOWN := "unknown"

  function Sanitize(value: Option<string>): string {
    var text := if value.Some? && value.value != "" then value.value else UNKNOWN;
    var cleaned := Lower(KeepAlnum(text));
    if cleaned != "" then cleaned else UNKNOWN
  }

  predicate Plain(s: string) {
    s != "" && forall i :: 0 <= i < |s| ==> IsPlain(s[i])
  }

  lemma LowerIsPlain(s: string)
    requires forall c :: c in s ==> IsAlnum(c)
    ensures forall i :: 0 <= i < |s| ==> IsPlain(Lower(s)[i])
  {
    forall i | 0 <= i < |s| ensures IsPlain(Lower(s)[i]) {
      assert s[i] in s;
    }
  }

  lemma UnknownIsPlain()
    ensures Plain(UNKNOWN)
  {
  }

  lemma SanitizeIsPlain(value: Option<string>)
    ensures Plain(Sanitize(value))
  {
    var kept := KeepAlnum(if value.Some? && value.value != "" then value.value else UNKNOWN);
    LowerIsPlain(kept);
    UnknownIsPlain();
    assert Sanitize(value) == if kept != "" then Lower(kept) else UNKNOWN;
  }

  lemma {:induction false} KeepAlnumPlain(s: string)
    requires forall i :: 0 <= i < |s| ==> IsPlain(s[i])
    ensures KeepAlnum(s) == s && Lower(s) == s
  {
    if s != "" {
      KeepAlnumPlain(s[1..]);
    }
  }

  /** Sanitizing what is already sanitized changes nothing. */
  lemma SanitizeIdempotent(value: Option<string>)
    ensures Sanitize(Some(Sanitize(value))) == Sanitize(value)
  {
    SanitizeIsPlain(value);
    KeepAlnumPlain(Sanitize(value));
  }

  /** A letter or digit of ASCII. */
  predicate Alphanumeric(c: char) {
    || 0 <= c as int - '0' as int <= 9
    || 0 <= c as int - 'A' as int <= 25
    || 0 <= c as int - 'a' as int <= 25
  }

  /** Sanitizing an alphanumeric name keeps every character, capitals in their small form. */
  lemma SanitizeLowersCapitals(s: string, i: nat)
    requires i < |s| && forall c :: c in s ==> Alphanumeric(c)
    ensures var r := Sanitize(Some(s));
      && |r| == |s|
      && r[i] as int == s[i] as int + if 'A' as int <= s[i] as int <= 'Z' as int then 'a' as int - 'A' as int else 0
  {
    KeepAlnumAll(s);
    assert s[i] in s;
  }

  lemma {:induction false} KeepAlnumAll(s: string)
    requires forall c :: c in s ==> Alphanumeric(c)
    ensures KeepAlnum(s) == s
  {
    if s != "" {
      assert s[0] in s;
      KeepAlnumAll(s[1..]);
    }
  }

  lemma {:induction false} KeepAlnumConcat(a: string, b: string)
    ensures KeepAlnum(a + b) == KeepAlnum(a) + KeepAlnum(b)
  {
    if a == "" {
      assert a + b == b;
    } else {
      assert (a + b)[1..] == a[1..] + b;
      KeepAlnumConcat(a[1..], b);
    }
  }

  /** Every other character is as if it were not there, unless nothing else is. */
  lemma SanitizeDropsOthers(a: string, c: char, b: string)
    requires !Alphanumeric(c)
    ensures Sanitize(Some(a + [c] + b)) == if a + b == "" then "unknown" else Sanitize(Some(a + b))
  {
    KeepAlnumConcat(a + [c], b);
    KeepAlnumConcat(a, [c]);
    KeepAlnumConcat(a, b);
    assert KeepAlnum([c]) == "";
    assert KeepAlnum(a) + "" == KeepAlnum(a);
  }

  /** A missing or empty value counts as "unknown". */
  lemma SanitizeOfNothing()
    ensures Sanitize(None) == Sanitize(Some("")) == "unknown"
  {
    UnknownIsPlain();
    KeepAlnumPlain("unknown");
  }

  // ---- Headers as Python dicts: keys in first-insertion order, values from the last write ----

  datatype Header = Header(key: string, value: Option<string>)

  function Put(d: seq<Header>, h: Header): seq<Header> {
    if d == [] then [h]
    else if d[0].key == h.key then [h] + d[1..]
    else [d[0]] + Put(d[1..], h)
  }

  /** dict(headers). */
  function ToDict(hs: seq<Header>): seq<Header> {
    if hs == [] then [] else Put(ToDict(hs[..|hs| - 1]), hs[|hs| - 1])
  }

  function LowerKey(h: Header): Header {
    Header(Lower(h.key), h.value)
  }

  /** {k.lower(): v for k, v in d.items()}. */
  function LowerDict(d: seq<Header>): seq<Header> {
    if d == [] then [] else Put(LowerDict(d[..|d| - 1]), LowerKey(d[|d| - 1]))
  }

  function Get(d: seq<Header>, key: string): Option<string> {
    if d == [] then None else if d[0].key == key then d[0].value else Get(d[1..], key)
  }

  /** headers.get(first) or headers.get(second). */
  function GetEither(d: seq<Header>, first: string, second: string): Option<string> {
    var v := Get(d, first);
    if v.Some? && v.value != "" then v else Get(d, second)
  }

  function OrgOf(hs: seq<Header>): string {
    Sanitize(GetEither(LowerDict(ToDict(hs)), "org_name", "orgname"))
  }

  function ProductOf(hs: seq<Header>): string {
    Sanitize(GetEither(LowerDict(ToDict(hs)), "product_type", "producttype"))
  }

  function TopicName(org: string, product: string): string {
    "dpn-consumer-" + org + "-" + product + "-target"
  }

  /** The destination as a function of the headers alone; None skips the message. */
  function Route(hs: seq<Header>): Option<string> {
    if OrgOf(hs) == UNKNOWN || ProductOf(hs) == UNKNOWN then None
    else Some(TopicName(OrgOf(hs), ProductOf(hs)))
  }

  class Forwarder {
    /** The field the source keeps between messages; "" when the last one was unroutable. */
    var targetTopic: string
    /** Topics handed to ensure_exists so far. */
    var ensured: set<string>
    var produced: seq<(string, seq<Header>)>

    ghost predicate Valid()
      reads this
    {
      targetTopic != "" ==> targetTopic in ensured
    }

    constructor ()
      ensures Valid() && targetTopic == "" && ensured == {} && produced == []
    {
      targetTopic, ensured, produced := "", {}, [];
    }

    method ResolveTarget(hs: seq<Header>)
      requires Valid()
      modifies this`targetTopic, this`ensured
      ensures Valid()
      ensures targetTopic == if Route(hs).Some? then Route(hs).value else ""
      ensures ensured == old(ensured) + if Route(hs).Some? then {Route(hs).value} else {}
    {
      var org, product := OrgOf(hs), ProductOf(hs);
      if org == UNKNOWN || product == UNKNOWN {
        targetTopic := "";
        return;
      }
      var resolved := TopicName(org, product);
      if resolved != targetTopic {
        targetTopic := resolved;
        ensured := ensured + {resolved};
      }
    }

    /** Route, enrich and produce one message, after any history of earlier ones. */
    method Forward(hs: seq<Header>, processedAt: string, offset: string)
      requires Valid()
      modifies this
      ensures Valid()
      ensures match Route(hs)
        case None => produced == old(produced) && ensured == old(ensured)
        case Some(topic) =>
          && topic in ensured && topic == "dpn-consumer-" + OrgOf(hs) + "-" + ProductOf(hs) + "-target"
          && produced == old(produced) + [(topic, hs + [
               Header("orgName", Some(OrgOf(hs))), Header("productType", Some(ProductOf(hs))),
               Header("processedAt", Some(processedAt)), Header("offset", Some(offset))])]
    {
      ResolveTarget(hs);
      if targetTopic == "" {
        return;
      }
      produced := produced + [(targetTopic, hs + Enrichment(OrgOf(hs), ProductOf(hs), processedAt, offset))];
    }
  }

  function Enrichment(org: string, product: string, processedAt: string, offset: string): seq<Header> {
    [Header("orgName", Some(org)), Header("productType", Some(product)),
     Header("processedAt", Some(processedAt)), Header("offset", Some(offset))]
  }

  // ---- What the route means ----

  /** No message ever goes to a topic built from an unknown organisation or product. */
  lemma RouteIsKnown(hs: seq<Header>)
    ensures Route(hs).Some? ==>
      && Plain(OrgOf(hs)) && Plain(ProductOf(hs))
      && OrgOf(hs) != UNKNOWN && ProductOf(hs) != UNKNOWN && Route(hs).value != ""
  {
    SanitizeIsPlain(GetEither(LowerDict(ToDict(hs)), "org_name", "orgname"));
    SanitizeIsPlain(GetEither(LowerDict(ToDict(hs)), "product_type", "producttype"));
  }

  lemma SplitAtHyphen(a: string, x: string, b: string, y: string)
    requires Plain(a) && Plain(b) && a + "-" + x == b + "-" + y
    ensures a == b && x == y
  {
    var l, r := a + "-" + x, b + "-" + y;
    assert l[|a|] == '-' && r[|b|] == '-';
    assert forall i :: 0 <= i < |a| ==> l[i] == a[i] && IsPlain(a[i]);
    assert forall i :: 0 <= i < |b| ==> r[i] == b[i] && IsPlain(b[i]);
    assert |a| == |b|;
    assert a == l[..|a|] == r[..|b|] == b;
    assert x == l[|a| + 1..] == r[|b| + 1..] == y;
  }

  /** Distinct organisation and product pairs get distinct topics. */
  lemma TopicNameInjective(org: string, product: string, org': string, product': string)
    requires Plain(org) && Plain(product) && Plain(org') && Plain(product')
    requires TopicName(org, product) == TopicName(org', product')
    ensures org == org' && product == product'
  {
    var head, tail := "dpn-consumer-", "target";
    var t, t' := TopicName(org, product), TopicName(org', product');
    assert t == head + (org + "-" + (product + "-" + tail)) && t' == head + (org' + "-" + (product' + "-" + tail));
    assert t[|head|..] == org + "-" + (product + "-" + tail) && t'[|head|..] == org' + "-" + (product' + "-" + tail);
    SplitAtHyphen(org, product + "-" + tail, org', product' + "-" + tail);
    SplitAtHyphen(product, tail, product', tail);
  }

  /** Two routed messages share a topic exactly when they agree on both sanitized names. */
  lemma SameTopicSameNames(a: seq<Header>, b: seq<Header>)
    ensures Route(a).Some? && Route(b).Some? ==>
      (Route(a) == Route(b) <==> OrgOf(a) == OrgOf(b) && ProductOf(a) == ProductOf(b))
  {
    RouteIsKnown(a);
    RouteIsKnown(b);
    if Route(a).Some? && Route(a) == Route(b) {
      TopicNameInjective(OrgOf(a), ProductOf(a), OrgOf(b), ProductOf(b));
    }
  }

  // ---- Which header decides ----

  /** The last header of a dict, in key order, whose key lower-cases to name. */
  function Winner(d: seq<Header>, name: string): Option<Header> {
    if d == [] then None
    else if Winner(d[1..], name).Some? then Winner(d[1..], name)
    else if Lower(d[0].key) == name then Some(d[0])
    else None
  }

  predicate HasKey(d: seq<Header>, key: string) {
    exists i :: 0 <= i < |d| && d[i].key == key
  }

  ghost predicate UniqueKeys(d: seq<Header>) {
    forall i, j :: 0 <= i < j < |d| ==> d[i].key != d[j].key
  }

  lemma {:induction false} PutGet(d: seq<Header>, h: Header, key: string)
    ensures Get(Put(d, h), key) == if h.key == key then h.value else Get(d, key)
  {
    if d != [] && d[0].key != h.key {
      PutGet(d[1..], h, key);
    }
  }

  lemma {:induction false} PutKeys(d: seq<Header>, h: Header)
    ensures forall x :: x in Put(d, h) ==> x == h || x in d
  {
    if d != [] && d[0].key != h.key {
      PutKeys(d[1..], h);
    }
  }

  lemma {:induction false} PutHasKey(d: seq<Header>, h: Header, key: string)
    ensures HasKey(Put(d, h), key) <==> key == h.key || HasKey(d, key)
  {
    var r := Put(d, h);
    if d == [] || d[0].key == h.key {
      assert r[0] == h;
      assert forall i :: 0 < i < |d| ==> r[i] == d[i];
    } else {
      PutHasKey(d[1..], h, key);
      HasKeyFront(d, key);
      HasKeyFront(r, key);
    }
  }

  lemma HasKeyFront(d: seq<Header>, key: string)
    requires d != []
    ensures HasKey(d, key) <==> d[0].key == key || HasKey(d[1..], key)
  {
    if HasKey(d, key) {
      var i :| 0 <= i < |d| && d[i].key == key;
      assert i > 0 ==> d[1..][i - 1] == d[i];
    }
    if HasKey(d[1..], key) {
      var i :| 0 <= i < |d[1..]| && d[1..][i].key == key;
      assert d[i + 1].key == key;
    }
  }

  lemma {:induction false} PutUnique(d: seq<Header>, h: Header)
    requires UniqueKeys(d)
    ensures UniqueKeys(Put(d, h))
  {
    if d != [] && d[0].key != h.key {
      PutUnique(d[1..], h);
      PutKeys(d[1..], h);
      var r := Put(d[1..], h);
      forall j | 0 <= j < |r| ensures r[j].key != d[0].key {
        assert r[j] in r;
      }
    }
  }

  lemma {:induction false} ToDictUnique(hs: seq<Header>)
    ensures UniqueKeys(ToDict(hs))
  {
    if hs != [] {
      ToDictUnique(hs[..|hs| - 1]);
      PutUnique(ToDict(hs[..|hs| - 1]), hs[|hs| - 1]);
    }
  }

  lemma {:induction false} WinnerSnoc(d: seq<Header>, h: Header, name: string)
    ensures Winner(d + [h], name) == if Lower(h.key) == name then Some(h) else Winner(d, name)
  {
    if d == [] {
      assert d + [h] == [h] && [h][1..] == [];
    } else {
      assert (d + [h])[1..] == d[1..] + [h];
      WinnerSnoc(d[1..], h, name);
    }
  }

  /** Looking a name up in the lower-cased dict finds the winner's value. */
  lemma {:induction false} LowerDictGet(d: seq<Header>, name: string)
    ensures Get(LowerDict(d), name) == if Winner(d, name).Some? then Winner(d, name).value.value else None
  {
    if d != [] {
      var front, last := d[..|d| - 1], d[|d| - 1];
      LowerDictGet(front, name);
      PutGet(LowerDict(front), LowerKey(last), name);
      WinnerSnoc(front, last, name);
      assert d == front + [last];
    }
  }

  lemma {:induction false} WinnerIsOne(d: seq<Header>, name: string)
    ensures Winner(d, name).Some? ==> Winner(d, name).value in d && Lower(Winner(d, name).value.key) == name
    ensures Winner(d, name).None? ==> forall h :: h in d ==> Lower(h.key) != name
  {
    if d != [] {
      WinnerIsOne(d[1..], name);
    }
  }

  /** Writing a header changes a name's winner only if it is spelt like the winner or is a new spelling of it. */
  lemma {:induction false} WinnerPut(d: seq<Header>, h: Header, name: string)
    requires UniqueKeys(d)
    ensures Winner(Put(d, h), name)
      == if Lower(h.key) != name then Winner(d, name)
         else if HasKey(d, h.key) && Winner(d, name).Some? && Winner(d, name).value.key != h.key then Winner(d, name)
         else Some(h)
  {
    if d == [] {
      assert [h][1..] == [];
    } else if d[0].key == h.key {
      assert ([h] + d[1..])[1..] == d[1..];
      WinnerIsOne(d[1..], name);
      if Winner(d[1..], name).Some? {
        var i :| 0 <= i < |d[1..]| && d[1..][i] == Winner(d[1..], name).value;
        assert d[i + 1].key != d[0].key;
      }
      assert HasKey(d, h.key);
    } else {
      WinnerPut(d[1..], h, name);
      HasKeyFront(d, h.key);
      assert ([d[0]] + Put(d[1..], h))[1..] == Put(d[1..], h);
      WinnerIsOne(d[1..], name);
      WhereKeyIs(d[1..], h.key, name);
    }
  }

  lemma WhereKeyIs(d: seq<Header>, key: string, name: string)
    ensures HasKey(d, key) && Lower(key) == name ==> Winner(d, name).Some?
  {
    if HasKey(d, key) && Lower(key) == name {
      WinnerIsOne(d, name);
      var i :| 0 <= i < |d| && d[i].key == key;
      assert d[i] in d;
    }
  }

  // ---- Headers stamped by the producer ----

  /** The names the consumer looks up. */
  predicate IsName(key: string) {
    key == "org_name" || key == "orgname" || key == "product_type" || key == "producttype"
  }

  /** The producer's _forward: sanitized names are appended to whatever the message had. */
  function Stamp(hs: seq<Header>, org: Option<string>, product: Option<string>, rest: seq<Header>): seq<Header> {
    hs + [Header("orgName", Some(Sanitize(org)))] + [Header("productType", Some(Sanitize(product)))] + rest
  }

  /**
   The value on the source message, if any, that outranks the producer's stamp: a non-empty one
   under the alias, or else one under another spelling of the name, first written after the
   producer's own spelling.
   */
  function Foreign(hs: seq<Header>, alias: string, name: string, spelling: string): Option<Option<string>> {
    var d := ToDict(hs);
    var byAlias, byName := Winner(d, alias), Winner(d, name);
    if byAlias.Some? && byAlias.value.value.Some? && byAlias.value.value.value != "" then Some(byAlias.value.value)
    else if HasKey(d, spelling) && byName.Some? && byName.value.key != spelling then Some(byName.value.value)
    else None
  }

  function ForeignOrg(hs: seq<Header>): Option<Option<string>> {
    Foreign(hs, "org_name", "orgname", "orgName")
  }

  function ForeignProduct(hs: seq<Header>): Option<Option<string>> {
    Foreign(hs, "product_type", "producttype", "productType")
  }

  function Decided(foreign: Option<Option<string>>, own: Option<string>): string {
    Sanitize(if foreign.Some? then foreign.value else own)
  }

  lemma Spellings()
    ensures Lower("orgName") == "orgname" && Lower("productType") == "producttype"
    ensures |"orgname"| == 7 && |"org_name"| == 8 && |"producttype"| == 11 && |"product_type"| == 12
  {
  }

  lemma ToDictSnoc(hs: seq<Header>, h: Header)
    ensures ToDict(hs + [h]) == Put(ToDict(hs), h)
  {
    assert (hs + [h])[..|hs|] == hs;
  }

  /** Headers of other names do not change a name's winner. */
  lemma {:induction false} WinnerKeptBy(hs: seq<Header>, tail: seq<Header>, name: string)
    requires forall h :: h in tail ==> Lower(h.key) != name
    ensures Winner(ToDict(hs + tail), name) == Winner(ToDict(hs), name)
  {
    if tail == [] {
      assert hs + tail == hs;
    } else {
      var front, last := tail[..|tail| - 1], tail[|tail| - 1];
      WinnerKeptBy(hs, front, name);
      assert hs + tail == (hs + front) + [last];
      ToDictSnoc(hs + front, last);
      ToDictUnique(hs + front);
      WinnerPut(ToDict(hs + front), last, name);
      assert last in tail;
    }
  }

  /** What a lookup finds when `stamp` was appended and only headers of other names came before and after it. */
  lemma {:induction false} StampedLookup(
    m: seq<Header>, hs: seq<Header>, before: seq<Header>, stamp: Header, after: seq<Header>, alias: string,
    name: string)
    requires m == hs + before + [stamp] + after
    requires Lower(stamp.key) == name != alias && stamp.value.Some? && stamp.value.value != ""
    requires forall h :: h in before ==> Lower(h.key) != name && Lower(h.key) != alias
    requires forall h :: h in after ==> Lower(h.key) != name && Lower(h.key) != alias
    ensures GetEither(LowerDict(ToDict(m)), alias, name)
      == var f := Foreign(hs, alias, name, stamp.key); if f.Some? then f.value else stamp.value
  {
    var d := ToDict(hs + before);
    LowerDictGet(ToDict(m), alias);
    LowerDictGet(ToDict(m), name);
    WinnerKeptBy(hs + before + [stamp], after, alias);
    WinnerKeptBy(hs + before + [stamp], after, name);
    WinnerKeptBy(hs, before, alias);
    WinnerKeptBy(hs, before, name);
    ToDictSnoc(hs + before, stamp);
    ToDictUnique(hs + before);
    WinnerPut(d, stamp, alias);
    WinnerPut(d, stamp, name);
    KeyKeptBy(hs, before, stamp.key);
  }

  lemma {:induction false} KeyKeptBy(hs: seq<Header>, tail: seq<Header>, key: string)
    requires forall h :: h in tail ==> h.key != key
    ensures HasKey(ToDict(hs + tail), key) <==> HasKey(ToDict(hs), key)
  {
    if tail == [] {
      assert hs + tail == hs;
    } else {
      var front, last := tail[..|tail| - 1], tail[|tail| - 1];
      KeyKeptBy(hs, front, key);
      assert hs + tail == (hs + front) + [last];
      ToDictSnoc(hs + front, last);
      PutHasKey(ToDict(hs + front), last, key);
      assert last in tail;
    }
  }

  /** Neither the other stamp nor the trace context touches a name or its alias. */
  lemma OthersApart(other: Header, rest: seq<Header>, alias: string, name: string)
    requires forall h :: h in rest ==> !IsName(Lower(h.key))
    requires IsName(alias) && IsName(name) && |Lower(other.key)| != |alias| && |Lower(other.key)| != |name|
    ensures forall h :: h in [other] + rest ==> Lower(h.key) != name && Lower(h.key) != alias
    ensures forall h :: h in rest ==> Lower(h.key) != name && Lower(h.key) != alias
  {
    forall h | h in [other] + rest ensures Lower(h.key) != name && Lower(h.key) != alias {
      assert h == other || h in rest;
    }
  }

  lemma {:induction false} StampedOrg(hs: seq<Header>, org: Option<string>, p: Header, rest: seq<Header>)
    requires p.key == "productType" && forall h :: h in rest ==> !IsName(Lower(h.key))
    ensures OrgOf(hs + [Header("orgName", Some(Sanitize(org)))] + [p] + rest) == Decided(ForeignOrg(hs), org)
  {
    var o := Header("orgName", Some(Sanitize(org)));
    Spellings();
    SanitizeIsPlain(org);
    SanitizeIdempotent(org);
    OthersApart(p, rest, "org_name", "orgname");
    var m := hs + [o] + [p] + rest;
    assert hs + [] == hs;
    ConcatAssociates(hs + [o], [p], rest);
    StampedLookup(m, hs, [], o, [p] + rest, "org_name", "orgname");
  }

  lemma {:induction false} StampedProduct(hs: seq<Header>, o: Header, product: Option<string>, rest: seq<Header>)
    requires o.key == "orgName" && forall h :: h in rest ==> !IsName(Lower(h.key))
    ensures ProductOf(hs + [o] + [Header("productType", Some(Sanitize(product)))] + rest)
         == Decided(ForeignProduct(hs), product)
  {
    Spellings();
    SanitizeIsPlain(product);
    SanitizeIdempotent(product);
    OthersApart(o, rest, "product_type", "producttype");
    var p := Header("productType", Some(Sanitize(product)));
    StampedLookup(hs + [o] + [p] + rest, hs, [o], p, rest, "product_type", "producttype");
  }

  /**
   Whatever headers the source message had, a stamped message is routed by the winning foreign
   value, if there is one, and by the producer's own name if there is none.
   */
  lemma StampedNames(hs: seq<Header>, org: Option<string>, product: Option<string>, rest: seq<Header>)
    requires forall h :: h in rest ==> !IsName(Lower(h.key))
    ensures OrgOf(Stamp(hs, org, product, rest)) == Decided(ForeignOrg(hs), org)
    ensures ProductOf(Stamp(hs, org, product, rest)) == Decided(ForeignProduct(hs), product)
  {
    StampedOrg(hs, org, Header("productType", Some(Sanitize(product))), rest);
    StampedProduct(hs, Header("orgName", Some(Sanitize(org))), product, rest);
  }

  /**
   So it is routed by the producer's own names if and only if the winning foreign values, if any, sanitize
   to them.
   */
  lemma StampedRoutesExactly(hs: seq<Header>, org: Option<string>, product: Option<string>, rest: seq<Header>)
    requires forall h :: h in rest ==> !IsName(Lower(h.key))
    ensures var m := Stamp(hs, org, product, rest);
      && (OrgOf(m) == Sanitize(org) <==> (ForeignOrg(hs).Some? ==> Sanitize(ForeignOrg(hs).value) == Sanitize(org)))
      && (ProductOf(m) == Sanitize(product) <==>
          (ForeignProduct(hs).Some? ==> Sanitize(ForeignProduct(hs).value) == Sanitize(product)))
  {
    StampedNames(hs, org, product, rest);
  }

  lemma TraceIsNoName()
    ensures !IsName(Lower("processedAt")) && !IsName(Lower("offset"))
  {
    assert Lower("processedAt")[3] == 'c' && Lower("offset")[1] == 'f';
    assert "producttype"[3] == 'd' && |"product_type"| == 12 && |"orgname"| == 7 && |"org_name"| == 8;
  }

  /** A message with just the two name headers goes to the topic of its own sanitized names, unless one is unknown. */
  lemma OrdinaryMessageRoute(org: string, product: string)
    requires org != "" && product != ""
    ensures var a, b := Sanitize(Some(org)), Sanitize(Some(product));
      Route([Header("orgName", Some(org)), Header("productType", Some(product))])
      == if a == "unknown" || b == "unknown" then None else Some("dpn-consumer-" + a + "-" + b + "-target")
  {
    PairOrg(Header("orgName", Some(org)), Header("productType", Some(product)));
    PairProduct(Header("orgName", Some(org)), Header("productType", Some(product)));
  }

  lemma {:induction false} PairOrg(o: Header, p: Header)
    requires o.key == "orgName" && p.key == "productType" && o.value.Some? && o.value.value != ""
    ensures OrgOf([o, p]) == Sanitize(o.value)
  {
    Spellings();
    assert [o, p] == [] + [] + [o] + [p];
    StampedLookup([o, p], [], [], o, [p], "org_name", "orgname");
  }

  lemma {:induction false} PairProduct(o: Header, p: Header)
    requires o.key == "orgName" && p.key == "productType" && p.value.Some? && p.value.value != ""
    ensures ProductOf([o, p]) == Sanitize(p.value)
  {
    Spellings();
    assert [o, p] == [] + [o] + [p] + [];
    StampedLookup([o, p], [], [o], p, [], "product_type", "producttype");
  }

  lemma ForeignIsRouted(hs: seq<Header>)
    ensures ForeignOrg(hs).Some? ==> Sanitize(ForeignOrg(hs).value) == OrgOf(hs)
    ensures ForeignProduct(hs).Some? ==> Sanitize(ForeignProduct(hs).value) == ProductOf(hs)
  {
    LowerDictGet(ToDict(hs), "org_name");
    LowerDictGet(ToDict(hs), "orgname");
    LowerDictGet(ToDict(hs), "product_type");
    LowerDictGet(ToDict(hs), "producttype");
  }

  /** The headers a forwarded message leaves with route it as the ones it came with. */
  lemma EnrichedRoutesSame(hs: seq<Header>, processedAt: string, offset: string)
    ensures Route(hs + [Header("orgName", Some(OrgOf(hs))), Header("productType", Some(ProductOf(hs))),
                        Header("processedAt", Some(processedAt)), Header("offset", Some(offset))]) == Route(hs)
  {
    var p, o := Header("processedAt", Some(processedAt)), Header("offset", Some(offset));
    TraceIsNoName();
    RestampedNames(hs, [p, o]);
    FourHeaders(hs, Header("orgName", Some(OrgOf(hs))), Header("productType", Some(ProductOf(hs))), p, o);
  }

  /** Stamping a message with the names it is routed by does not change them. */
  lemma RestampedNames(hs: seq<Header>, rest: seq<Header>)
    requires forall h :: h in rest ==> !IsName(Lower(h.key))
    ensures var m := hs + [Header("orgName", Some(OrgOf(hs)))] + [Header("productType", Some(ProductOf(hs)))] + rest;
      OrgOf(m) == OrgOf(hs) && ProductOf(m) == ProductOf(hs)
  {
    SanitizeIdempotent(GetEither(LowerDict(ToDict(hs)), "org_name", "orgname"));
    SanitizeIdempotent(GetEither(LowerDict(ToDict(hs)), "product_type", "producttype"));
    StampedNames(hs, Some(OrgOf(hs)), Some(ProductOf(hs)), rest);
    ForeignIsRouted(hs);
  }

  lemma FourHeaders(hs: seq<Header>, a: Header, b: Header, c: Header, d: Header)
    ensures hs + [a, b, c, d] == hs + [a] + [b] + [c, d]
  {
  }

  /** A non-empty org_name on the source message always outranks the stamp. */
  lemma AliasOverridesStamp(
    hs: seq<Header>, alias: Header, org: Option<string>, product: Option<string>, rest: seq<Header>)
    requires Winner(ToDict(hs), "org_name") == Some(alias) && alias.value.Some? && alias.value.value != ""
    requires forall h :: h in rest ==> !IsName(Lower(h.key))
    ensures OrgOf(Stamp(hs, org, product, rest)) == Sanitize(alias.value)
  {
    StampedNames(hs, org, product, rest);
  }

  /** The source message carries none of these names, in any spelling but the producer's own. */
  predicate NoAlias(hs: seq<Header>) {
    forall h :: h in hs && IsName(Lower(h.key)) ==> h.key == "orgName" || h.key == "productType"
  }

  lemma {:induction false} ToDictMembers(hs: seq<Header>)
    ensures forall h :: h in ToDict(hs) ==> h in hs
  {
    if hs != [] {
      ToDictMembers(hs[..|hs| - 1]);
      PutKeys(ToDict(hs[..|hs| - 1]), hs[|hs| - 1]);
    }
  }

  lemma NoAliasNoForeign(hs: seq<Header>)
    requires NoAlias(hs)
    ensures ForeignOrg(hs).None? && ForeignProduct(hs).None?
  {
    var d := ToDict(hs);
    ToDictMembers(hs);
    Spellings();
    WinnerIsOne(d, "org_name");
    WinnerIsOne(d, "orgname");
    WinnerIsOne(d, "product_type");
    WinnerIsOne(d, "producttype");
  }

  /**
   In particular a message without aliases and other spellings, whose later headers (trace context)
   use none of the names, is routed by the producer's own sanitized organisation and product.
   */
  lemma StampedRoutesToProducer(hs: seq<Header>, org: Option<string>, product: Option<string>, rest: seq<Header>)
    requires NoAlias(hs) && forall h :: h in rest ==> !IsName(Lower(h.key))
    ensures var m := Stamp(hs, org, product, rest);
      && OrgOf(m) == Sanitize(org) && ProductOf(m) == Sanitize(product)
      && (Route(m).Some? <==> Sanitize(org) != UNKNOWN && Sanitize(product) != UNKNOWN)
  {
    NoAliasNoForeign(hs);
    StampedNames(hs, org, product, rest);
  }
}
