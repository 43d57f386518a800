/** The usual optional value: `None` stands for JavaScript's `undefined` (an axe whose lifespan
    was never set), for a projectile that a step destroyed and for a timer that has no event. */
module Optional {

  datatype Option<T> = None | Some(value: T)
}
