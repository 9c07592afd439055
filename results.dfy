/** Result and Option types standing in for the RuntimeExceptions of the wallet. */
module Results {

  /** The four domain errors the wallet can raise. */
  datatype Error =
    | CurrencyMismatch   // Money arithmetic across currencies
    | UnsupportedPair    // no exchange rate for the pair
    | AccountNotFound    // unknown account id
    | InsufficientFunds  // withdrawal above the balance

  datatype Result<+T> = Ok(value: T) | Err(error: Error)

  datatype Option<+T> = None | Some(value: T)
}
