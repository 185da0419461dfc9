/** The stored records the server and the client exchange: the `Ipo` and
    `Subscriber` tables (the client's `Ipo` interface has the same fields).
    Dates are millisecond timestamps. */
module Schema {
  import opened Wrappers

  datatype Ipo = Ipo(
    id: string,
    name: string,
    subStart: Option<int>,
    subEnd: Option<int>,
    offerPrice: Option<int>,
    bandLow: Option<int>,
    bandHigh: Option<int>,
    competition: Option<string>,
    underwriter: Option<string>,
    lockupRate: Option<string>,
    circulatingSupply: Option<string>,
    otcPrice: Option<string>,
    refundDate: Option<int>,
    listDate: Option<int>)

  datatype Subscriber = Subscriber(
    email: string,
    verificationCode: Option<string>,
    codeExpiresAt: Option<int>,
    isActive: bool,
    isVerified: bool,
    unsubscribeToken: Option<string>)

  const SecondMs: int := 1000
  const DayMs: int := 24 * 60 * 60 * SecondMs
}
