/** What tags stand for: under the directives of a document and the default ones, and when the emitter
    has taken them apart. */
module ResolvedTags {
  import opened Utf8
  import opened EventGrammar
  import opened ParserSpec
  import opened TokenPrinter
  import opened ParserInverse
  import E = EmitterSpec

  predicate Declares(ds: seq<TagDirective>, h: Text) {
    exists i | 0 <= i < |ds| :: ds[i].handle == h
  }

  lemma DefaultDirectives()
    ensures DEFAULT_TAG_DIRECTIVES
         == [TagDirective(Ascii("!"), Ascii("!")), TagDirective(Ascii("!!"), Ascii("tag:yaml.org,2002:"))]
  {
    assert Ascii("!") == [0x21];
    assert Ascii("!!") == [0x21, 0x21];
    assert Ascii("tag:yaml.org,2002:")
        == [0x74, 0x61, 0x67, 0x3A, 0x79, 0x61, 0x6D, 0x6C, 0x2E, 0x6F, 0x72, 0x67, 0x2C, 0x32, 0x30, 0x30, 0x32, 0x3A];
  }

  /** A directive behind others is the first for its handle if none of them has it. */
  lemma BehindOthers(ds: seq<TagDirective>, more: seq<TagDirective>, h: Text)
    ensures forall i: nat :: FirstFor(ds, i, h) ==> FirstFor(ds + more, i, h)
    ensures forall i: nat :: !Declares(ds, h) && FirstFor(more, i, h) ==> FirstFor(ds + more, |ds| + i, h)
  {
  }

  /** A handle stands for the prefix that the document's first directive for it gives; without one, "!"
      stands for itself and "!!" for "tag:yaml.org,2002:", and other handles are refused. */
  lemma TagsInForce(d: DocumentTree, h: Text, s: Text)
    requires h != []
    ensures var own := if d.explicit then DirectiveTags(d.directives) else [];
            && (forall i: nat | i < |own| && FirstFor(own, i, h) :: TagMeant(InForce(d), TagRef(h, s)) == own[i].prefix + s)
            && (!Declares(own, h) ==>
                  if h == Ascii("!") then TagMeant(InForce(d), TagRef(h, s)) == Ascii("!") + s
                  else if h == Ascii("!!") then TagMeant(InForce(d), TagRef(h, s)) == Ascii("tag:yaml.org,2002:") + s
                  else !GoodTag(InForce(d), TagRef(h, s)))
  {
    var own := if d.explicit then DirectiveTags(d.directives) else [];
    DefaultDirectives();
    OwnAndDefaults(own, h);
    var more := DefaultsFor(own);
    hide FirstFor, TagMeant, WithDefaults;
    BehindOthers(own, more, h);
    forall i: nat | i < |own| && FirstFor(own, i, h)
      ensures TagMeant(InForce(d), TagRef(h, s)) == own[i].prefix + s
    {
      InBounds(own, i, h);
      FirstIsOne(own + more, i, h, s);
    }
    if !Declares(own, h) {
      if h == Ascii("!") || h == Ascii("!!") {
        var i: nat :| i < |more| && FirstFor(more, i, h) && (more[i] == DEFAULT_TAG_DIRECTIVES[0] || more[i] == DEFAULT_TAG_DIRECTIVES[1]);
        InBounds(more, i, h);
        FirstIsOne(own + more, |own| + i, h, s);
      }
    }
  }

  lemma InBounds(ds: seq<TagDirective>, i: nat, h: Text)
    requires FirstFor(ds, i, h)
    ensures i < |ds| && ds[i].handle == h
  {
  }

  /** The default directives for handles that have none. */
  function DefaultsFor(own: seq<TagDirective>): seq<TagDirective> {
    (if Declares(own, Ascii("!")) then [] else [TagDirective(Ascii("!"), Ascii("!"))])
    + (if Declares(own, Ascii("!!")) then [] else [TagDirective(Ascii("!!"), Ascii("tag:yaml.org,2002:"))])
  }

  lemma OwnAndDefaults(own: seq<TagDirective>, h: Text)
    ensures WithDefaults(own) == own + DefaultsFor(own)
    ensures !Declares(own, h) && h == Ascii("!") ==> FirstFor(DefaultsFor(own), 0, h)
    ensures !Declares(own, h) && h == Ascii("!!") ==> FirstFor(DefaultsFor(own), |DefaultsFor(own)| - 1, h)
    ensures forall i: nat | FirstFor(DefaultsFor(own), i, h) :: h == Ascii("!") || h == Ascii("!!")
    ensures forall i: nat :: FirstFor(own + DefaultsFor(own), i, h) ==> Declares(own, h) || h == Ascii("!") || h == Ascii("!!")
  {
    DefaultDirectives();
    assert Ascii("!") != Ascii("!!") by {
      assert |Ascii("!")| == 1 && |Ascii("!!")| == 2;
    }
    assert own + [] == own;
  }

  /** A node whose tag has a handle without directive is refused. */
  lemma UndefinedTagRefused(props: Props, p: P, tail: seq<Token>, block: bool, indentless: bool)
    requires p.tokens == PropTokens(props, tail) && tail != []
    requires !tail[0].AnchorToken? && !tail[0].TagToken? && !tail[0].AliasToken?
    requires props.tag.TagRef? && props.tag.handle != [] && !Declares(p.tagDirectives, props.tag.handle)
    ensures ParseNode(p, block, indentless) == Error
  {
    PropsRead(props, p, tail);
    TagIsMeant(p.tagDirectives, props.tag);
    hide PropTokens, ReadProperties, TagMeant;
    assert forall i: nat :: !FirstFor(p.tagDirectives, i, props.tag.handle);
  }

  // ---- Tags that the emitter writes ----

  predicate Distinct(ds: seq<TagDirective>) {
    forall i, j | 0 <= i < j < |ds| :: ds[i].handle != ds[j].handle
  }

  /** The emitter cuts a tag at the first prefix that it begins with. */
  lemma {:induction false} TagCut(ds: seq<TagDirective>, d: E.Data, tag: Text)
    ensures var r := E.TagData(ds, d, tag);
            || (r == d.(suffix := tag) && forall i | 0 <= i < |ds| :: !(ds[i].prefix <= tag))
            || exists i: nat :: i < |ds| && r.handle == ds[i].handle && ds[i].prefix + r.suffix == tag && r.anchor == d.anchor
    decreases |ds|
  {
    if ds != [] {
      var r := E.TagData(ds, d, tag);
      if ds[0].prefix <= tag {
        assert ds[0].prefix + tag[|ds[0].prefix|..] == tag;
        assert r.handle == ds[0].handle && ds[0].prefix + r.suffix == tag;
      } else {
        TagCut(ds[1..], d, tag);
        if exists i: nat :: i < |ds| - 1 && r.handle == ds[1..][i].handle && ds[1..][i].prefix + r.suffix == tag {
          var i: nat :| i < |ds| - 1 && r.handle == ds[1..][i].handle && ds[1..][i].prefix + r.suffix == tag;
          assert ds[i + 1] == ds[1..][i];
        } else {
          assert forall i | 1 <= i < |ds| :: ds[i] == ds[1..][i - 1];
        }
      }
    }
  }

  /** The parser makes of the handle and the suffix that the emitter writes for a tag the tag. */
  lemma TagReadsBack(ds: seq<TagDirective>, tag: Text)
    requires Distinct(ds) && forall i | 0 <= i < |ds| :: ds[i].handle != []
    ensures var d := E.TagData(ds, E.NO_DATA, tag); ResolveTag(ds, TagRef(d.handle, d.suffix)) == tag
  {
    hide E.TagData;
    TagCut(ds, E.NO_DATA, tag);
    var d := E.TagData(ds, E.NO_DATA, tag);
    TagIsMeant(ds, TagRef(d.handle, d.suffix));
    if d.handle != [] {
      var i: nat :| i < |ds| && d.handle == ds[i].handle && ds[i].prefix + d.suffix == tag;
      assert FirstFor(ds, i, d.handle);
      FirstIsOne(ds, i, d.handle, d.suffix);
    }
  }

  /** The default directives do not spoil this. */
  lemma DefaultsAreDistinct(own: seq<TagDirective>)
    requires Distinct(own) && forall i | 0 <= i < |own| :: own[i].handle != []
    ensures Distinct(WithDefaults(own)) && forall i | 0 <= i < |WithDefaults(own)| :: WithDefaults(own)[i].handle != []
  {
    OwnAndDefaults(own, []);
    assert |Ascii("!")| == 1 && |Ascii("!!")| == 2;
  }

  /** The tag of an event is in its analysis exactly if it has to be written, so that the parser reads
      it back under the directives that the emitter has. */
  lemma EventTagReadsBack(m: E.M, anchor: Text, tag: Text, implicit: bool)
    requires Distinct(m.tagDirectives) && forall i | 0 <= i < |m.tagDirectives| :: m.tagDirectives[i].handle != []
    requires E.AnalyzeProperties(m, anchor, tag, implicit).Good?
    ensures var d := E.AnalyzeProperties(m, anchor, tag, implicit).data;
            && d.anchor == anchor
            && ResolveTag(m.tagDirectives, TagRef(d.handle, d.suffix)) == if m.canonical || !implicit then tag else []
  {
    hide E.TagData, ResolveHandle;
    var ds := m.tagDirectives;
    TagReadsBack(ds, tag);
    var a := E.AnalyzeAnchor(E.NO_DATA, anchor).data;
    AnchorApart(ds, a, tag);
  }

  /** The anchor has no part in it. */
  lemma {:induction false} AnchorApart(ds: seq<TagDirective>, d: E.Data, tag: Text)
    requires d.handle == [] && d.suffix == []
    ensures var r, s := E.TagData(ds, d, tag), E.TagData(ds, E.NO_DATA, tag);
            r.handle == s.handle && r.suffix == s.suffix && r.anchor == d.anchor
    decreases |ds|
  {
    if ds != [] && !(ds[0].prefix <= tag) {
      AnchorApart(ds[1..], d, tag);
    }
  }
}
