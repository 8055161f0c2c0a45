/**
 * client/src/contexts/MaterialTailwindContext.tsx: the layout controller shared by the
 * dashboard pages: a record of sidebar, navbar and configurator settings, changed only
 * through a reducer that sets one field per action.
 */
module UiController {
  import opened Wrappers

  datatype SidenavType = Dark | White | Transparent

  datatype SidenavColor = Blue | Red | Green | Orange | Purple | Pink | Teal | Cyan | Indigo

  datatype ControllerState = ControllerState(
    openSidenav: bool,
    openRightSidebar: bool,
    sidenavType: SidenavType,
    sidenavColor: SidenavColor,
    transparentNavbar: bool,
    fixedNavbar: bool,
    openConfigurator: bool)

  /** The dispatched actions; `Unknown` is a tag the reducer does not recognise. */
  datatype Action =
    | OpenSidenav(flag: bool)
    | OpenRightSidebar(flag: bool)
    | SetType(sidenavType: SidenavType)
    | SetColor(sidenavColor: SidenavColor)
    | TransparentNavbar(flag: bool)
    | FixedNavbar(flag: bool)
    | OpenConfigurator(flag: bool)
    | Unknown(tag: string)

  function InitialState(): (s: ControllerState)
    ensures !s.openSidenav && !s.openRightSidebar && !s.openConfigurator
    ensures s.sidenavType == White && s.sidenavColor == Blue
    ensures s.transparentNavbar && !s.fixedNavbar
  {
    ControllerState(false, false, White, Blue, true, false, false)
  }

  function Reduce(s: ControllerState, a: Action): ControllerState {
    match a
    case OpenSidenav(v) => s.(openSidenav := v)
    case OpenRightSidebar(v) => s.(openRightSidebar := v)
    case SetType(v) => s.(sidenavType := v)
    case SetColor(v) => s.(sidenavColor := v)
    case TransparentNavbar(v) => s.(transparentNavbar := v)
    case FixedNavbar(v) => s.(fixedNavbar := v)
    case OpenConfigurator(v) => s.(openConfigurator := v)
    case Unknown(_) => s
  }

  // ---------------------------------------------------------------- a field-wise view

  datatype Field = OpenSidenavField | OpenRightSidebarField | TypeField | ColorField
                 | TransparentNavbarField | FixedNavbarField | OpenConfiguratorField

  datatype Value = Flag(b: bool) | TypeValue(t: SidenavType) | ColorValue(c: SidenavColor)

  function Get(s: ControllerState, f: Field): Value {
    match f
    case OpenSidenavField => Flag(s.openSidenav)
    case OpenRightSidebarField => Flag(s.openRightSidebar)
    case TypeField => TypeValue(s.sidenavType)
    case ColorField => ColorValue(s.sidenavColor)
    case TransparentNavbarField => Flag(s.transparentNavbar)
    case FixedNavbarField => Flag(s.fixedNavbar)
    case OpenConfiguratorField => Flag(s.openConfigurator)
  }

  /** The field an action targets and the value it carries; None for an unknown tag. */
  function Target(a: Action): Option<(Field, Value)> {
    match a
    case OpenSidenav(v) => Some((OpenSidenavField, Flag(v)))
    case OpenRightSidebar(v) => Some((OpenRightSidebarField, Flag(v)))
    case SetType(v) => Some((TypeField, TypeValue(v)))
    case SetColor(v) => Some((ColorField, ColorValue(v)))
    case TransparentNavbar(v) => Some((TransparentNavbarField, Flag(v)))
    case FixedNavbar(v) => Some((FixedNavbarField, Flag(v)))
    case OpenConfigurator(v) => Some((OpenConfiguratorField, Flag(v)))
    case Unknown(_) => None
  }

  /** Two states that agree on every field are the same state. */
  lemma FieldsDetermineState(s: ControllerState, t: ControllerState)
    requires forall f :: Get(s, f) == Get(t, f)
    ensures s == t
  {
    assert Get(s, OpenSidenavField) == Get(t, OpenSidenavField);
    assert Get(s, OpenRightSidebarField) == Get(t, OpenRightSidebarField);
    assert Get(s, TypeField) == Get(t, TypeField);
    assert Get(s, ColorField) == Get(t, ColorField);
    assert Get(s, TransparentNavbarField) == Get(t, TransparentNavbarField);
    assert Get(s, FixedNavbarField) == Get(t, FixedNavbarField);
    assert Get(s, OpenConfiguratorField) == Get(t, OpenConfiguratorField);
  }

  /** An action sets exactly its own field to its value; every other field, and every field on an unknown tag, is kept. */
  lemma ReduceSetsOnlyItsField(s: ControllerState, a: Action, f: Field)
    ensures Target(a).Some? && Target(a).value.0 == f ==> Get(Reduce(s, a), f) == Target(a).value.1
    ensures (Target(a).None? || Target(a).value.0 != f) ==> Get(Reduce(s, a), f) == Get(s, f)
  {
  }

  /** Dispatching the same action twice is the same as dispatching it once. */
  lemma ReduceIdempotent(s: ControllerState, a: Action)
    ensures Reduce(Reduce(s, a), a) == Reduce(s, a)
  {
  }

  /** Actions on different fields can be dispatched in either order. */
  lemma ReduceCommutes(s: ControllerState, a: Action, b: Action)
    requires Target(a).Some? && Target(b).Some? && Target(a).value.0 != Target(b).value.0
    ensures Reduce(Reduce(s, a), b) == Reduce(Reduce(s, b), a)
  {
    forall f ensures Get(Reduce(Reduce(s, a), b), f) == Get(Reduce(Reduce(s, b), a), f) {
      CommuteOnField(s, a, b, f);
    }
    FieldsDetermineState(Reduce(Reduce(s, a), b), Reduce(Reduce(s, b), a));
  }

  /** Each field ends up the same whichever of two actions on different fields comes first. */
  lemma CommuteOnField(s: ControllerState, a: Action, b: Action, f: Field)
    requires Target(a).Some? && Target(b).Some? && Target(a).value.0 != Target(b).value.0
    ensures Get(Reduce(Reduce(s, a), b), f) == Get(Reduce(Reduce(s, b), a), f)
  {
    ReduceSetsOnlyItsField(s, a, f);
    ReduceSetsOnlyItsField(s, b, f);
    ReduceSetsOnlyItsField(Reduce(s, a), b, f);
    ReduceSetsOnlyItsField(Reduce(s, b), a, f);
  }

  // ---------------------------------------------------------------- action creators

  /** `setOpenSidenav(dispatch, value)` and its siblings: the action each one dispatches. */
  function SetOpenSidenav(value: bool): (a: Action)
    ensures Target(a) == Some((OpenSidenavField, Flag(value)))
  { OpenSidenav(value) }

  function SetOpenRightSidebar(value: bool): (a: Action)
    ensures Target(a) == Some((OpenRightSidebarField, Flag(value)))
  { OpenRightSidebar(value) }

  function SetSidenavType(value: SidenavType): (a: Action)
    ensures Target(a) == Some((TypeField, TypeValue(value)))
  { SetType(value) }

  function SetSidenavColor(value: SidenavColor): (a: Action)
    ensures Target(a) == Some((ColorField, ColorValue(value)))
  { SetColor(value) }

  function SetTransparentNavbar(value: bool): (a: Action)
    ensures Target(a) == Some((TransparentNavbarField, Flag(value)))
  { TransparentNavbar(value) }

  function SetFixedNavbar(value: bool): (a: Action)
    ensures Target(a) == Some((FixedNavbarField, Flag(value)))
  { FixedNavbar(value) }

  function SetOpenConfigurator(value: bool): (a: Action)
    ensures Target(a) == Some((OpenConfiguratorField, Flag(value)))
  { OpenConfigurator(value) }
}
