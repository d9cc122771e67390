/** The "value or nothing" type used for the optional fields of the
    plugins' records (TypeScript `field?: T`, `null`, `undefined`). */
module Optional {

  datatype Option<+T> = None | Some(value: T)

}
