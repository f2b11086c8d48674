/** Option and Result, used for pandas' missing values and for the error strings
    get_fund_data_v2 returns in the third slot of its triple. */
module Wrappers {

  datatype Option<+T> = None | Some(value: T)

  datatype Result<+R, +E> = Ok(value: R) | Err(error: E)
}
