/** The one failure-free container every other module needs: `std::optional`. */
module Wrappers {

  datatype Option<+T> = None | Some(value: T)

}
