/**
 Names (service/models.py): the product-type grammar, the storage container rule,
 the adaptor's container name and the proposed default names. Regular expressions
 are given their meaning; a final `$` also matches before one trailing newline.
 */
module ProductNames {
  import opened Lifecycle
  import Resources

  predicate LowerAlnum(c: char) { 'a' <= c <= 'z' || '0' <= c <= '9' }

  predicate NameChar(c: char) { LowerAlnum(c) || c == '-' }

  predicate Word(w: string) {
    w != "" && forall i :: 0 <= i < |w| ==> LowerAlnum(w[i])
  }

  function Join(words: seq<string>): string
    requires words != []
  {
    if |words| == 1 then words[0] else words[0] + "-" + Join(words[1..])
  }

  /** [a-z0-9]+(-[a-z0-9]+)* : words joined by single hyphens. */
  ghost predicate InGrammar(s: string) {
    exists words :: words != [] && (forall i :: 0 <= i < |words| ==> Word(words[i])) && Join(words) == s
  }

  predicate HasDoubleHyphen(s: string) {
    exists i :: 0 < i < |s| && s[i - 1] == '-' && s[i] == '-'
  }

  /** [a-z0-9]([a-z0-9-]*[a-z0-9])? */
  predicate Edged(s: string) {
    s != "" && LowerAlnum(s[0]) && LowerAlnum(s[|s| - 1]) && forall i :: 0 <= i < |s| ==> NameChar(s[i])
  }

  predicate Slug(s: string) {
    Edged(s) && !HasDoubleHyphen(s)
  }

  /** Without one trailing newline, as `$` allows. */
  function Chomp(s: string): string {
    if s != "" && s[|s| - 1] == '\n' then s[..|s| - 1] else s
  }

  const PRODUCT_TYPE_MAX_LENGTH := 44
  const LABEL_MAX_LENGTH := 63

  /** The product_type validator, on the value after strip() and lower(). */
  ghost predicate ProductTypeAccepted(value: string) {
    InGrammar(Chomp(value)) && |value| <= PRODUCT_TYPE_MAX_LENGTH
  }

  datatype Verdict = Accepted | BadLength | BadCharacters

  function ValidateContainerName(name: string): (v: Verdict)
    ensures v == BadLength <==> |name| < 3 || |name| > 63
  {
    if !(3 <= |name| <= 63) then BadLength
    else if HasDoubleHyphen(name) || !Edged(Chomp(name)) then BadCharacters
    else Accepted
  }

  // ---- The two grammars meet ----

  /** Words joined by single hyphens are exactly the edged names without a double hyphen. */
  lemma GrammarIsEdged(s: string)
    ensures InGrammar(s) <==> Slug(s)
  {
    if InGrammar(s) {
      var words :| words != [] && (forall i :: 0 <= i < |words| ==> Word(words[i])) && Join(words) == s;
      JoinedIsEdged(words);
    }
    if Slug(s) {
      var words := Split(s);
    }
  }

  lemma {:induction false} JoinedIsEdged(words: seq<string>)
    requires words != [] && forall i :: 0 <= i < |words| ==> Word(words[i])
    ensures Slug(Join(words))
  {
    if |words| > 1 {
      JoinedIsEdged(words[1..]);
      HyphenBetween(words[0], Join(words[1..]));
      WordIsEdged(words[0]);
    } else {
      WordIsEdged(words[0]);
    }
  }

  lemma WordIsEdged(w: string)
    requires Word(w)
    ensures Slug(w)
  {
  }

  lemma HyphenBetween(a: string, b: string)
    requires Slug(a) && Slug(b)
    ensures Slug(a + "-" + b)
  {
    var s := a + "-" + b;
    assert s[0] == a[0] && s[|s| - 1] == b[|b| - 1];
    forall i | 0 < i < |s| ensures !(s[i - 1] == '-' && s[i] == '-') {
      if i < |a| {
        assert s[i - 1] == a[i - 1] && s[i] == a[i];
      } else if i == |a| {
        assert s[i - 1] == a[|a| - 1];
      } else if i == |a| + 1 {
        assert s[i] == b[0];
      } else {
        assert s[i - 1] == b[i - |a| - 2] && s[i] == b[i - |a| - 1];
      }
    }
    forall i | 0 <= i < |s| ensures NameChar(s[i]) {
      assert s[i] == if i < |a| then a[i] else if i == |a| then '-' else b[i - |a| - 1];
    }
  }

  lemma {:induction false} Split(s: string) returns (words: seq<string>)
    requires Slug(s)
    ensures words != [] && (forall i :: 0 <= i < |words| ==> Word(words[i])) && Join(words) == s
    decreases |s|
  {
    var i := 0;
    while i < |s| && s[i] != '-'
      invariant 0 <= i <= |s|
      invariant forall k :: 0 <= k < i ==> LowerAlnum(s[k])
    {
      i := i + 1;
    }
    if i == |s| {
      words := [s];
    } else {
      var rest := s[i + 1..];
      assert i + 1 < |s|;
      assert NameChar(s[i + 1]) && rest[0] == s[i + 1];
      assert !HasDoubleHyphen(rest) by {
        forall k | 0 < k < |rest| ensures !(rest[k - 1] == '-' && rest[k] == '-') {
          assert rest[k - 1] == s[i + k] && rest[k] == s[i + 1 + k];
        }
      }
      var tail := Split(rest);
      words := [s[..i]] + tail;
      assert words[1..] == tail;
      assert s == s[..i] + "-" + rest;
    }
  }

  // ---- Defaults ----

  function DefaultNames(pathway: Pathway, p: string): Resources.Product {
    if pathway == File then Resources.FileProduct(p, p + "-stage", p + "-target", "dpn-producer-file-" + p + "-target")
    else Resources.TopicProduct(p, "dpn-producer-" + p + "-stage", "dpn-producer-" + p + "-target")
  }

  /** Validated values are stripped, so the grammar holds of the value itself. */
  lemma AcceptedIsSlug(p: string)
    requires ProductTypeAccepted(p) && Chomp(p) == p
    ensures Slug(p) && |p| <= PRODUCT_TYPE_MAX_LENGTH
  {
    GrammarIsEdged(p);
  }

  /** A stripped value is accepted exactly when it is a hyphenated name of at most 44 characters. */
  lemma AcceptedExactly(p: string)
    requires Chomp(p) == p
    ensures ProductTypeAccepted(p) <==> Slug(p) && |p| <= 44
  {
    GrammarIsEdged(p);
  }

  /** What the names of the default fields are. */
  lemma DefaultsSpelledOut(p: string)
    ensures var f, t := DefaultNames(File, p), DefaultNames(Topic, p);
      && f.source == p + "-stage" && f.target == p + "-target"
      && f.topic == "dpn-producer-" + "file-" + p + "-target"
      && t.srcTopic == "dpn-producer-" + p + "-stage" && t.targetTopic == "dpn-producer-" + p + "-target"
  {
    assert "dpn-producer-" + "file-" + p + "-target" == "dpn-producer-file-" + p + "-target";
  }

  lemma SlugPasses(name: string)
    requires Slug(name) && 3 <= |name| <= 63
    ensures ValidateContainerName(name) == Accepted
  {
    assert Chomp(name) == name;
  }

  /** An accepted product type's default storage names pass the storage rule. */
  lemma DefaultContainersAreAccepted(p: string)
    requires ProductTypeAccepted(p) && Chomp(p) == p
    ensures var d := DefaultNames(File, p);
      ValidateContainerName(d.source) == Accepted && ValidateContainerName(d.target) == Accepted
  {
    AcceptedIsSlug(p);
    WordIsEdged("stage");
    WordIsEdged("target");
    HyphenBetween(p, "stage");
    HyphenBetween(p, "target");
    assert p + "-stage" == p + "-" + "stage" && p + "-target" == p + "-" + "target";
    SlugPasses(p + "-stage");
    SlugPasses(p + "-target");
  }

  /** The container rule, characterized: a hyphenated name of 3 to 63 characters, or one a newline shorter. */
  lemma ContainerRuleExactly(name: string)
    ensures ValidateContainerName(name) == Accepted <==> 3 <= |name| <= 63 && InGrammar(Chomp(name))
  {
    GrammarIsEdged(Chomp(name));
    if name != Chomp(name) {
      forall i | 0 < i < |name| && name[i - 1] == '-' && name[i] == '-' ensures HasDoubleHyphen(Chomp(name)) {
        assert Chomp(name)[i] == '-';
      }
    }
  }

  lemma PrefixIsSlug(pathway: string)
    requires Word(pathway)
    ensures Slug("dpn-producer-" + pathway)
  {
    WordIsEdged("dpn");
    WordIsEdged("producer");
    WordIsEdged(pathway);
    HyphenBetween("dpn", "producer");
    HyphenBetween("dpn-producer", pathway);
    assert "dpn" + "-" + "producer" == "dpn-producer" && "dpn-producer" + "-" + pathway == "dpn-producer-" + pathway;
  }

  /**
   The adaptor's container name is a label in the sense of section 2.1 of RFC 1123: hyphenated words, at
   most 63 characters.
   */
  lemma AdaptorNameIsALabel(r: Row)
    requires ProductTypeAccepted(r.productType) && Chomp(r.productType) == r.productType
    ensures InGrammar(ContainerName(r)) && |ContainerName(r)| <= LABEL_MAX_LENGTH
  {
    var kind := if r.pathway == File then "file" else "topic";
    AcceptedIsSlug(r.productType);
    PrefixIsSlug(kind);
    HyphenBetween("dpn-producer-" + kind, r.productType);
    assert ContainerName(r) == "dpn-producer-" + kind + "-" + r.productType;
    GrammarIsEdged(ContainerName(r));
  }

  /** 44 is exactly the length up to which every pathway's adaptor name stays within a label. */
  lemma TypeLimitIsExact(p: string)
    ensures |p| <= 44 <==> forall r: Row :: r.productType == p ==> |ContainerName(r)| <= 63
  {
    var topic := Row(p, Topic, true, Automatic);
    assert |ContainerName(topic)| == 19 + |p|;
    forall r: Row | r.productType == p ensures |ContainerName(r)| <= 19 + |p| {
    }
  }

  // ---- Which defaults collide ----

  lemma SameMiddle(a: string, p: string, q: string, z: string)
    ensures a + p + z == a + q + z <==> p == q
  {
    var s, t := a + p + z, a + q + z;
    if s == t {
      assert |p| == |q|;
      assert p == s[|a|..|a| + |p|] == t[|a|..|a| + |q|] == q;
    }
  }

  lemma DifferentEnd(a: string, b: string)
    requires a != "" && b != "" && a[|a| - 1] != b[|b| - 1]
    ensures a != b
  {
  }

  /** No product's default names repeat each other, so the duplicate check passes on them. */
  lemma DefaultsAreDistinct(cloud: Resources.Cloud, pathway: Pathway, p: string)
    ensures Resources.Distinct(cloud, DefaultNames(pathway, p))
  {
    DifferentEnd(p + "-stage", p + "-target");
    DifferentEnd(p + "-stage", "dpn-producer-file-" + p + "-target");
    DifferentEnd("dpn-producer-" + p + "-stage", "dpn-producer-" + p + "-target");
    assert |p + "-target"| < |"dpn-producer-file-" + p + "-target"|;
  }

  ghost predicate DefaultsMeet(cloud: Resources.Cloud, a: Pathway, p: string, b: Pathway, q: string) {
    !(Resources.Named(cloud, DefaultNames(a, p)) !! Resources.Named(cloud, DefaultNames(b, q)))
  }

  lemma FileDefaultsMeet(cloud: Resources.Cloud, p: string, q: string)
    ensures DefaultsMeet(cloud, File, p, File, q) <==> p == q
  {
    assert "" + p == p && "" + q == q;
    SameMiddle("", p, q, "-stage");
    SameMiddle("", p, q, "-target");
    SameMiddle("dpn-producer-file-", p, q, "-target");
    DifferentEnd(p + "-stage", q + "-target");
    DifferentEnd(q + "-stage", p + "-target");
    var d, e := DefaultNames(File, p), DefaultNames(File, q);
    if p == q {
      assert Resources.Topic(d.topic) in Resources.Named(cloud, d) * Resources.Named(cloud, e);
    }
  }

  lemma TopicDefaultsMeet(cloud: Resources.Cloud, p: string, q: string)
    ensures DefaultsMeet(cloud, Topic, p, Topic, q) <==> p == q
  {
    SameMiddle("dpn-producer-", p, q, "-stage");
    SameMiddle("dpn-producer-", p, q, "-target");
    DifferentEnd("dpn-producer-" + p + "-stage", "dpn-producer-" + q + "-target");
    DifferentEnd("dpn-producer-" + q + "-stage", "dpn-producer-" + p + "-target");
    var d := DefaultNames(Topic, p);
    assert Resources.Topic(d.srcTopic) in Resources.Named(cloud, d);
  }

  lemma FileMeetsTopic(cloud: Resources.Cloud, p: string, q: string)
    ensures DefaultsMeet(cloud, File, p, Topic, q) <==> q == "file-" + p
    ensures DefaultsMeet(cloud, Topic, q, File, p) <==> q == "file-" + p
  {
    SameMiddle("dpn-producer-", "file-" + p, q, "-target");
    assert "dpn-producer-" + ("file-" + p) + "-target" == "dpn-producer-file-" + p + "-target";
    DifferentEnd("dpn-producer-" + q + "-stage", "dpn-producer-file-" + p + "-target");
    var d, e := DefaultNames(File, p), DefaultNames(Topic, q);
    assert Resources.Topic(d.topic) in Resources.Named(cloud, d);
    assert Resources.Topic(e.targetTopic) in Resources.Named(cloud, e);
  }

  /**
   Two products' default names share a topic or container only for one and the same product, or for a file
   product p beside a topic product file-p.
   */
  lemma DefaultsMeetExactly(cloud: Resources.Cloud, a: Pathway, p: string, b: Pathway, q: string)
    ensures DefaultsMeet(cloud, a, p, b, q) <==>
      if a == b then p == q else if a == File then q == "file-" + p else p == "file-" + q
  {
    if a == File && b == File {
      FileDefaultsMeet(cloud, p, q);
    } else if a == Topic && b == Topic {
      TopicDefaultsMeet(cloud, p, q);
    } else if a == File {
      FileMeetsTopic(cloud, p, q);
    } else {
      FileMeetsTopic(cloud, q, p);
    }
  }

  /**
   Beside a settled product with default names, an unrelated one is never turned away, and a file-p topic
   product always is.
   */
  lemma DefaultsBesideEachOther(cloud: Resources.Cloud, a: Pathway, p: string, b: Pathway, q: string)
    requires p != q
    ensures Resources.Accepts(
      cloud, [DefaultNames(a, p)], DefaultNames(b, q), Resources.Named(cloud, DefaultNames(a, p)))
            <==> !(a == File && b == Topic && q == "file-" + p) && !(a == Topic && b == File && p == "file-" + q)
  {
    DefaultsMeetExactly(cloud, a, p, b, q);
    DefaultsAreDistinct(cloud, b, q);
    assert DefaultNames(a, p).productType == p && DefaultNames(b, q).productType == q;
  }
}
