/** The gripper electromagnet (`Electroiman`): whether its GPIO pin is set up
    and whether the magnet is on. Each GPIO call either succeeds or raises; a
    boolean parameter says which. */
module Electromagnet {

  datatype Electroiman = Electroiman(pin: int, actiu: bool, construit: bool)

  /** `setup`: configures the pin only when not yet configured; a failure
      leaves it unconfigured. The magnet state is never touched. */
  function Setup(e: Electroiman, gpioOk: bool): (r: Electroiman)
    ensures r.pin == e.pin && r.actiu == e.actiu
    ensures e.construit ==> r == e
    ensures !e.construit ==> (r.construit <==> gpioOk)
  {
    if e.construit then e
    else e.(construit := gpioOk)
  }

  /** The constructor: off, then `setup`. */
  function Crear(pin: int, gpioOk: bool): (r: Electroiman)
    ensures r.pin == pin && !r.actiu
    ensures r.construit <==> gpioOk
  {
    Setup(Electroiman(pin, false, false), gpioOk)
  }

  /** Once configured, repeating `setup` changes nothing, whatever the GPIO
      layer would do. */
  lemma SetupIdempotent(e: Electroiman, ok1: bool, ok2: bool)
    ensures Setup(e, ok1).construit ==> Setup(Setup(e, ok1), ok2) == Setup(e, ok1)
    ensures Entrar(Crear(e.pin, true), ok2) == Crear(e.pin, true)
  {
  }

  /** `activar`: refused on an unconfigured pin; otherwise the pin write
      decides both the result and the state (a failed write records the
      magnet as off). */
  function Activar(e: Electroiman, gpioOk: bool): (r: (Electroiman, bool))
    ensures r.0.pin == e.pin && r.0.construit == e.construit
    ensures !e.construit ==> r == (e, false)
    ensures e.construit ==> (r.1 <==> gpioOk) && (r.0.actiu <==> gpioOk)
  {
    if !e.construit then (e, false)
    else if gpioOk then (e.(actiu := true), true)
    else (e.(actiu := false), false)
  }

  /** `desactivar`: refused on an unconfigured pin; a successful write turns
      the magnet off, a failed one leaves the recorded state as it was. */
  function Desactivar(e: Electroiman, gpioOk: bool): (r: (Electroiman, bool))
    ensures r.0.pin == e.pin && r.0.construit == e.construit
    ensures !e.construit ==> r == (e, false)
    ensures e.construit ==> (r.1 <==> gpioOk)
    ensures e.construit && gpioOk ==> !r.0.actiu
    ensures !gpioOk ==> r.0 == e
  {
    if !e.construit then (e, false)
    else if gpioOk then (e.(actiu := false), true)
    else (e, false)
  }

  /** `cleanup`: on a configured pin, first switch the magnet off if it is on,
      then release the pin; a failed release keeps the pin configured. On an
      unconfigured pin nothing happens. */
  function Netejar(e: Electroiman, desactivarOk: bool, cleanupOk: bool): (r: Electroiman)
    ensures r.pin == e.pin
    ensures !e.construit ==> r == e
    ensures e.construit ==> (r.construit <==> !cleanupOk)
    ensures e.construit ==> (r.actiu <==> e.actiu && !desactivarOk)
  {
    if !e.construit then e
    else
      var e1 := if e.actiu then Desactivar(e, desactivarOk).0 else e;
      e1.(construit := !cleanupOk)
  }

  /** `estat_actiu`. */
  function EstatActiu(e: Electroiman): (r: bool)
    ensures r == e.actiu
  {
    e.actiu
  }

  /** `__enter__`: set up the pin if needed. `__exit__`: clean up. */
  function Entrar(e: Electroiman, gpioOk: bool): (r: Electroiman)
    ensures r == Setup(e, gpioOk)
  {
    if !e.construit then Setup(e, gpioOk) else e
  }

  /** A magnet that was activated and then cleaned up with every GPIO call
      succeeding ends off and released, and a further cleanup does nothing. */
  lemma ActivateThenCleanup(pin: int)
    ensures var e := Activar(Crear(pin, true), true);
      && e.1 && EstatActiu(e.0)
      && !Netejar(e.0, true, true).actiu && !Netejar(e.0, true, true).construit
      && Netejar(Netejar(e.0, true, true), false, false) == Netejar(e.0, true, true)
  {
  }

  /** If switching off fails during cleanup but the release succeeds, the
      magnet stays recorded as on with an unconfigured pin, and no later
      `desactivar` can clear that record until the pin is set up again. */
  lemma FailedCleanupLeavesMagnetOn(e: Electroiman, ok: bool)
    requires e.construit && e.actiu
    ensures var n := Netejar(e, false, true);
      && EstatActiu(n) && !n.construit
      && Desactivar(n, ok).0 == n && !Desactivar(n, ok).1
  {
  }

  /** After the pin is released, `activar` and `desactivar` both refuse, so a
      later command cannot energise the magnet. */
  lemma NoCommandsAfterCleanup(e: Electroiman, d: bool, ok: bool)
    requires e.construit
    ensures !Activar(Netejar(e, d, true), ok).1
    ensures !Activar(Netejar(e, d, true), ok).0.actiu <==> !Netejar(e, d, true).actiu
  {
  }
}
