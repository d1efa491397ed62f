/** The failure-carrying value used wherever the simulator would otherwise
    loop forever or report nothing: `None` means "no answer". */
module Wrappers {

  datatype Option<+T> = None | Some(value: T)
}
