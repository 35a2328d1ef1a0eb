/// Shared vocabulary of the ELVIS III driver model: the two connector banks,
/// values kept per bank, the errors the driver raises, and a Result wrapper.
module Common {

  /// The two connectors of the ELVIS III board.
  datatype Bank = A | B

  /// A value kept for each bank (the driver's `{Bank.A: ..., Bank.B: ...}` dictionaries).
  datatype PerBank<T> = PerBank(a: T, b: T)
  {
    function Get(bank: Bank): T
    {
      if bank == A then a else b
    }

    function Set(bank: Bank, v: T): (r: PerBank<T>)
      ensures r.Get(bank) == v
      ensures r.Get(Opposite(bank)) == Get(Opposite(bank))
    {
      if bank == A then PerBank(v, b) else PerBank(a, v)
    }
  }

  /// The other bank.
  function Opposite(b: Bank): Bank
  {
    if b == A then B else A
  }

  function Both<T>(v: T): (r: PerBank<T>)
    ensures r.Get(A) == v && r.Get(B) == v
  {
    PerBank(v, v)
  }

  /// The exceptions the driver raises, named after their cause.
  datatype Error =
    | MissingBank            // AssertionError: 'bank' key absent
    | MissingChannel         // AssertionError: 'channel' key absent
    | InvalidBank            // AssertionError: bank not a Bank member
    | InvalidChannel         // AssertionError: channel outside the allowed range
    | InvalidRange           // AssertionError: range not an AIRange member
    | MissingKey             // KeyError: a configuration key absent (legacy driver)
    | InvalidParameter       // AssertionError: a parameter outside its documented range
    | WrongArity             // TypeError: read/write called with an unsupported argument count
    | AlreadyStarted         // AssertionError: a continuous acquisition already runs on the bank
    | NotStarted             // AssertionError: continuous mode has not been started
    | BufferOverrun          // AssertionError: the DMA FIFO overflowed
    | AcquisitionTimeout     // the FIFO did not deliver the data within the timeout
    | FifoTimeout            // the FIFO had too few empty places for a write within the timeout
    | TooManyChannels        // IndexError: more than 12 channels configured on one bank
    | SlotOutOfRange         // IndexError: a configuration slot past the 12-entry table
    | OutOfRange             // ValueError: frequency outside the coercion range
    | DivisionByZero         // ZeroDivisionError
    | NoFifo                 // AttributeError: the bank's DMA FIFO handle is None
    | BankNotOpened          // AttributeError: the bank's register handles are None
    | HandshakeNeverCompletes // a register handshake whose condition can never hold
    | ChannelNotOpened       // AssertionError: a DIO channel that was not opened
    | CounterError           // OverflowError: the encoder reported an invalid transition
    | CounterOverflow        // OverflowError: the encoder's signed counter overflowed
    | AddressNotAcknowledged // ValueError: the I2C slave did not acknowledge its address
    | DataNotAcknowledged    // ValueError: the I2C slave did not acknowledge a data byte

  datatype Result<T> = Ok(value: T) | Err(error: Error)
  {
    predicate IsFailure() { Err? }

    function PropagateFailure<U>(): Result<U>
      requires Err?
    {
      Err(error)
    }

    function Extract(): T
      requires Ok?
    {
      value
    }
  }

  datatype Option<T> = None | Some(value: T)

  function Max(x: int, y: int): int { if x >= y then x else y }

  function Min(x: int, y: int): int { if x <= y then x else y }

  function Sum(s: seq<nat>): nat
  {
    if s == [] then 0 else Sum(s[..|s| - 1]) + s[|s| - 1]
  }

  /// Regrouping a concatenation, stated once so that callers need not prove
  /// sequence equality element by element.
  lemma AppendAssoc<T>(a: seq<T>, b: seq<T>, c: seq<T>)
    ensures a + b + c == a + (b + c)
  {
  }

  /// Regrouping a trace extended by five pieces in turn.
  lemma AppendAssoc5<T>(t: seq<T>, a: seq<T>, b: seq<T>, c: seq<T>, d: seq<T>, e: seq<T>)
    ensures t + a + b + c + d + e == t + (a + b + c + d + e)
  {
    AppendAssoc(t, a, b);
    AppendAssoc(t, a + b, c);
    AppendAssoc(t, a + b + c, d);
    AppendAssoc(t, a + b + c + d, e);
  }

  lemma AppendEmpty<T>(a: seq<T>)
    ensures a + [] == a && [] + a == a
  {
  }
}
