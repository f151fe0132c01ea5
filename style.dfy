/** A KBP style record, its colour representation check, palette
    resolution, and the derivation of its "fixed" (non-wiping) variant. */
module Style {
  import opened Wrappers
  import Palette

  /** A colour field: a palette index as parsed, or a colour code once
      resolved against the palette. */
  datatype Color = Index(index: int) | Code(code: string)

  datatype KbpStyle = KbpStyle(
    name: string,
    textcolor: Color,
    outlinecolor: Color,
    textwipecolor: Color,
    outlinewipecolor: Color,
    fontname: string,
    fontsize: int,
    fontstyle: string,
    charset: int,
    outlines: seq<int>,
    shadows: seq<int>,
    wipestyle: int,
    allcaps: string,
    fixed: bool)
  {
    /** The four colour fields, in declaration order. */
    function Colors(): seq<Color> {
      [textcolor, outlinecolor, textwipecolor, outlinewipecolor]
    }
  }

  /** has_colors(): true when all four colours are resolved codes, false
      when all four are palette indices, and an error on a mix
      (HasColorsSpec). */
  function HasColors(s: KbpStyle): Result<bool> {
    if s.textcolor.Code? && s.outlinecolor.Code? && s.textwipecolor.Code? && s.outlinewipecolor.Code? then
      Ok(true)
    else if s.textcolor.Index? && s.outlinecolor.Index? && s.textwipecolor.Index? && s.outlinewipecolor.Index? then
      Ok(false)
    else
      Err(MixedColors)
  }

  lemma HasColorsSpec(s: KbpStyle)
    ensures HasColors(s) == Ok(true) <==> forall c :: c in s.Colors() ==> c.Code?
    ensures HasColors(s) == Ok(false) <==> forall c :: c in s.Colors() ==> c.Index?
    ensures HasColors(s).Err? <==>
      (exists c :: c in s.Colors() && c.Code?) && (exists c :: c in s.Colors() && c.Index?)
    ensures HasColors(s).Err? ==> HasColors(s).error == MixedColors
  {
    assert s.Colors()[0] == s.textcolor && s.Colors()[1] == s.outlinecolor;
    assert s.Colors()[2] == s.textwipecolor && s.Colors()[3] == s.outlinewipecolor;
  }

  /** resolve_colors(palette): every palette index replaced by the code it
      names, nothing else touched (ResolveColorsSpec). A style whose colours
      are already codes ends in the error of the warning branch, which
      names a variable that does not exist. */
  function ResolveColors(s: KbpStyle, p: Palette.Palette): (r: Result<KbpStyle>)
    ensures r.Ok? ==> HasColors(r.value) == Ok(true)
  {
    var has :- HasColors(s);
    if has then Err(AlreadyResolved)
    else
      var t :- Palette.Get(p, s.textcolor.index);
      var o :- Palette.Get(p, s.outlinecolor.index);
      var tw :- Palette.Get(p, s.textwipecolor.index);
      var ow :- Palette.Get(p, s.outlinewipecolor.index);
      Ok(s.(textcolor := Code(t), outlinecolor := Code(o), textwipecolor := Code(tw), outlinewipecolor := Code(ow)))
  }

  lemma ResolveColorsSpec(s: KbpStyle, p: Palette.Palette)
    ensures ResolveColors(s, p).Ok? <==>
      HasColors(s) == Ok(false) && forall c :: c in s.Colors() ==> 0 <= c.index < 16
    ensures HasColors(s) == Ok(true) ==> ResolveColors(s, p) == Err(AlreadyResolved)
    ensures HasColors(s).Err? ==> ResolveColors(s, p) == Err(MixedColors)
    ensures ResolveColors(s, p).Ok? ==> forall k :: 0 <= k < 4 ==>
      ResolveColors(s, p).value.Colors()[k] == Color.Code(p[s.Colors()[k].index])
    ensures ResolveColors(s, p).Ok? ==>
      ResolveColors(s, p).value.(textcolor := s.textcolor, outlinecolor := s.outlinecolor,
                                 textwipecolor := s.textwipecolor, outlinewipecolor := s.outlinewipecolor) == s
  {
    HasColorsSpec(s);
  }

  /** make_fixed(): the variant of a style that does not wipe. A fixed
      style is returned as it is; otherwise the name gains "_fixed", the
      wipe colours become the plain colours, and every other field stays. */
  function MakeFixed(s: KbpStyle): (r: KbpStyle)
    ensures r.fixed
    ensures s.fixed ==> r == s
    ensures !s.fixed ==> r.name == s.name + "_fixed"
    ensures !s.fixed ==> r.textwipecolor == s.textcolor && r.outlinewipecolor == s.outlinecolor
    ensures r.textcolor == s.textcolor && r.outlinecolor == s.outlinecolor
    ensures r.(name := s.name, textwipecolor := s.textwipecolor, outlinewipecolor := s.outlinewipecolor,
               fixed := s.fixed) == s
  {
    if s.fixed then s
    else s.(name := s.name + "_fixed", textwipecolor := s.textcolor, outlinewipecolor := s.outlinecolor, fixed := true)
  }

  /** Deriving the fixed variant twice changes nothing the second time. */
  lemma MakeFixedIdempotent(s: KbpStyle)
    ensures MakeFixed(MakeFixed(s)) == MakeFixed(s)
  {
  }
}
