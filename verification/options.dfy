/** The optional value a lookup returns: `None` plays the part of JavaScript's
    `undefined` for a missing todo-list or todo. */
module Options {

  datatype Option<+T> = None | Some(value: T)

}
