/** The page header (src/components/Header.tsx): its dropdown and the logout action. */
module Header {
  import opened Session

  /** Events the dropdown reacts to: a click on its trigger, or a mousedown anywhere in the document. */
  datatype DropdownEvent = TriggerClick | MouseDown(insideDropdown: bool)

  /** The dropdown's `isOpen` after one event. */
  function DropdownStep(isOpen: bool, e: DropdownEvent): (r: bool)
    ensures e == TriggerClick ==> r != isOpen
    ensures e == MouseDown(false) ==> !r
    ensures e == MouseDown(true) ==> r == isOpen
  {
    match e
    case TriggerClick => !isOpen
    case MouseDown(inside) => if inside then isOpen else false
  }

  /** Replays a sequence of events from a starting state. */
  function DropdownRun(isOpen: bool, es: seq<DropdownEvent>): bool
    decreases |es|
  {
    if |es| == 0 then isOpen else DropdownRun(DropdownStep(isOpen, es[0]), es[1..])
  }

  function CountClicks(es: seq<DropdownEvent>): nat {
    if |es| == 0 then 0 else (if es[0] == TriggerClick then 1 else 0) + CountClicks(es[1..])
  }

  /** With no outside mousedown, the dropdown is open exactly when an odd number of trigger clicks flipped it. */
  lemma {:induction false} DropdownParity(isOpen: bool, es: seq<DropdownEvent>)
    requires forall i :: 0 <= i < |es| ==> es[i] != MouseDown(false)
    ensures DropdownRun(isOpen, es) == (if CountClicks(es) % 2 == 0 then isOpen else !isOpen)
    decreases |es|
  {
    if |es| > 0 {
      DropdownParity(DropdownStep(isOpen, es[0]), es[1..]);
    }
  }

  /** `handleLogout`: drops the token and the snapshot, keeps every other key, and replaces the route with '/'. */
  function HandleLogout(st: Store): (r: (Store, Navigation))
    ensures TokenKey !in r.0 && UserKey !in r.0
    ensures forall k :: k in st && k != TokenKey && k != UserKey ==> k in r.0 && r.0[k] == st[k]
    ensures forall k :: k in r.0 ==> k in st
    ensures r.1 == Navigation("/", true)
  {
    (st - {TokenKey, UserKey}, ToLogin)
  }

  /** The header's logout and the API service's `logout` leave the same store. */
  lemma HeaderLogoutIsServiceLogout(st: Store)
    ensures HandleLogout(st).0 == Logout(st)
  {
  }
}
