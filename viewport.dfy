// Window geometry and the fixed configuration of the scene.
// Window sizes are whole pixels; positions derived from them are reals.
module Viewport {

  /** The ground line every falling object aims for: 90% of the viewport height. */
  function GroundY(innerHeight: nat): real
  {
    0.9 * (innerHeight as real)
  }

  /** The manager's responsive petal count: ten on narrow (mobile) viewports, twenty otherwise. */
  function PetalCount(innerWidth: nat): (n: nat)
    ensures n == 10 <==> innerWidth < 768
    ensures n == 20 <==> innerWidth >= 768
  {
    if innerWidth < 768 then 10 else 20
  }
}
