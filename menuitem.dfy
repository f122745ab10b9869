/**
 * The part of a menu entry (`menuet.MenuItem`) that the menus here set: its
 * kind, its text and its font weight.
 */
module MenuItems {

  datatype ItemKind = Regular | Separator
  datatype Weight = Normal | Light | Medium

  datatype MenuItem = MenuItem(kind: ItemKind, text: string, weight: Weight)

  /** `menuet.MenuItem{}`: the zero value. */
  const Blank := MenuItem(Regular, "", Normal)

  /** `menuet.MenuItem{Type: menuet.Separator}`. */
  const SeparatorItem := MenuItem(Separator, "", Normal)

  /** `menuet.MenuItem{Text: t, FontWeight: menuet.WeightMedium}`: a section heading. */
  function Heading(t: string): (r: MenuItem)
    ensures r.kind == Regular && r.text == t && r.weight == Medium
  {
    MenuItem(Regular, t, Medium)
  }
}
