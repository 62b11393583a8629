// The light source of src/light.rs.

module Lights {
  import opened Linalg
  import opened Colors

  /** The four phases of the day/night cycle, by the names the program reports. */
  datatype DayPhase = Dia | Amanecer | Atardecer | Noche

  /** A point light whose position the orbit update rewrites in place. */
  class Light {
    var position: Vec3
    var color: Color
    var intensity: real

    /** `Light::new`: stores its arguments unchanged. */
    constructor (position: Vec3, color: Color, intensity: real)
      ensures this.position == position && this.color == color && this.intensity == intensity
    {
      this.position := position;
      this.color := color;
      this.intensity := intensity;
    }

    /**
     * `light_condition`: the phase for the light's height and side. Each
     * position has exactly one phase: day for heights in [20, 40), dawn or
     * dusk for heights in [0, 20) on the positive or non-positive side of x,
     * night below 0 and from 40 up. Reading the phase changes no field.
     */
    function LightCondition(): (phase: DayPhase)
      reads this
      ensures phase == Dia <==> 20.0 <= position.y < 40.0
      ensures phase == Amanecer <==> 0.0 <= position.y < 20.0 && position.x > 0.0
      ensures phase == Atardecer <==> 0.0 <= position.y < 20.0 && position.x <= 0.0
      ensures phase == Noche <==> position.y < 0.0 || 40.0 <= position.y
    {
      var y := position.y;
      var x := position.x;
      if y >= 20.0 && y < 40.0 then Dia
      else if y >= 0.0 && y < 20.0 then (if x > 0.0 then Amanecer else Atardecer)
      else Noche
    }

    /**
     * `update_position_orbit`: moves the light on the circle of `radius`
     * around `center` in the x/y plane, at `angle`; the height `z`, colour
     * and intensity are kept.
     */
    method UpdatePositionOrbit(m: Math, center: Vec3, radius: real, angle: real)
      modifies this
      ensures position.x == center.x + radius * m.cos(angle)
      ensures position.y == center.y + radius * m.sin(angle)
      ensures position.z == old(position.z)
      ensures color == old(color) && intensity == old(intensity)
    {
      var fixedZ := position.z;
      position := position.(x := center.x + radius * m.cos(angle));
      position := position.(y := center.y + radius * m.sin(angle));
      position := position.(z := fixedZ);
    }
  }
}
