/** The records of the game (src/types.ts). Coordinates are normalised to the
    playfield, so they do not depend on the canvas size. The random string ids
    that the engine gives rockets, missiles and explosions are dropped; the
    fixed ids of batteries and cities are kept. */
module Types {

  datatype Option<T> = None | Some(value: T)

  /** The session states of the app shell ('START' | 'PLAYING' | 'WON' | 'LOST'). */
  datatype GameState = Start | Playing | Won | Lost

  datatype Point = Point(x: real, y: real)

  /** An enemy rocket; `progress` is 0 at spawn, reaches 1 at the ground and is
      set to 2 to mark the rocket dead until the next frame filters it out. */
  datatype Rocket = Rocket(x: real, y: real, originX: real, targetX: real, speed: real, progress: real)

  /** A player missile flying from its battery to the clicked point. */
  datatype Missile = Missile(x: real, y: real, originX: real, originY: real,
                             targetX: real, targetY: real, speed: real, progress: real)

  /** A blast: grows while `expanding`, then shrinks to zero. */
  datatype Explosion = Explosion(x: real, y: real, radius: real, maxRadius: real, expanding: bool)

  datatype Battery = Battery(id: string, x: real, y: real, ammo: int, maxAmmo: int, destroyed: bool)

  datatype City = City(id: string, x: real, y: real, destroyed: bool)
}
