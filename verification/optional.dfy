/** The "maybe absent" value the widget's state uses in place of JavaScript's
    `null` / `undefined`. */
module Optional {

  datatype Option<+T> = None | Some(value: T)
}
