/** yaml_emitter_select_scalar_style: the style of a scalar is the one that is asked for if it may be used, and
    otherwise the next one that may. */
module ScalarStyles {
  import opened ScalarText
  import E = EventGrammar

  /** What the choice depends on besides the analysis: whether the value is empty, whether there is no tag to
      write, the flags of the event, and where the scalar stands. */
  datatype Setting = Setting(empty: bool, noTag: bool, implicit: bool, quotedImplicit: bool, canonical: bool, simpleKey: bool, flow: bool)

  /** A style is allowed by the analysis and by the place, and the scalar keeps its type in it: without a tag a
      plain scalar must have an implicit one. */
  predicate MayUse(x: Setting, d: ScalarData, style: E.ScalarStyle) {
    match style
    case AnyStyle => false
    case Plain =>
      && (if x.flow then d.flowPlainAllowed else d.blockPlainAllowed) && !(x.simpleKey && d.multiline)
      && !(x.empty && (x.flow || x.simpleKey)) && (x.noTag ==> x.implicit)
    case SingleQuoted => d.singleQuotedAllowed && !(x.simpleKey && d.multiline)
    case DoubleQuoted => true
    case Literal => d.blockAllowed && !x.flow && !x.simpleKey
    case Folded => d.blockAllowed && !x.flow && !x.simpleKey
  }

  /** The styles that come into question, the best first. */
  function Preferences(x: Setting, wanted: E.ScalarStyle): (r: seq<E.ScalarStyle>)
    ensures r != [] && r[|r| - 1] == E.DoubleQuoted
  {
    if x.canonical then [E.DoubleQuoted]
    else
      match wanted
      case AnyStyle => [E.Plain, E.SingleQuoted, E.DoubleQuoted]
      case Plain => [E.Plain, E.SingleQuoted, E.DoubleQuoted]
      case SingleQuoted => [E.SingleQuoted, E.DoubleQuoted]
      case DoubleQuoted => [E.DoubleQuoted]
      case _ => [wanted, E.DoubleQuoted]
  }

  /** The style is the first that may be used. A scalar that is not plain and has neither a tag nor an implicit
      type when quoted gets the tag '!'. */
  method SelectScalarStyle(x: Setting, d: ScalarData, wanted: E.ScalarStyle)
    returns (ok: bool, style: E.ScalarStyle, nonspecific: bool)
    ensures ok <==> !x.noTag || x.implicit || x.quotedImplicit
    ensures ok ==>
              var all := Preferences(x, wanted);
              exists i | 0 <= i < |all| ::
                style == all[i] && MayUse(x, d, all[i]) && forall j | 0 <= j < i :: !MayUse(x, d, all[j])
    ensures ok ==> (nonspecific <==> x.noTag && !x.quotedImplicit && style != E.Plain)
    ensures ok && x.noTag && !nonspecific ==> if style == E.Plain then x.implicit else x.quotedImplicit
  {
    style, nonspecific := wanted, false;
    if x.noTag && !x.implicit && !x.quotedImplicit {
      return false, style, nonspecific;
    }
    ghost var all := Preferences(x, wanted);
    if style == E.AnyStyle {
      style := E.Plain;
    }
    if x.canonical {
      style := E.DoubleQuoted;
    }
    if x.simpleKey && d.multiline {
      style := E.DoubleQuoted;
    }
    if style == E.Plain {
      if (x.flow && !d.flowPlainAllowed) || (!x.flow && !d.blockPlainAllowed) {
        style := E.SingleQuoted;
      }
      if x.empty && (x.flow || x.simpleKey) {
        style := E.SingleQuoted;
      }
      if x.noTag && !x.implicit {
        style := E.SingleQuoted;
      }
    }
    if style == E.SingleQuoted {
      if !d.singleQuotedAllowed {
        style := E.DoubleQuoted;
      }
    }
    if style == E.Literal || style == E.Folded {
      if !d.blockAllowed || x.flow || x.simpleKey {
        style := E.DoubleQuoted;
      }
    }
    if x.noTag && !x.quotedImplicit && style != E.Plain {
      nonspecific := true;
    }
    ok := true;
    assert style == all[0] || (|all| > 1 && style == all[1]) || (|all| > 2 && style == all[2]);
  }
}
