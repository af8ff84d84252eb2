/** The enriched transaction the analysers read and the signal each of them emits. */
module Signals {
  import opened Common
  import opened Reasons

  datatype Channel = CardPresent | Ecom | Atm | P2P | Wallet

  datatype Transaction = Transaction(amount: real, merchantCategory: string, merchantCountry: string, channel: Channel)

  datatype Velocity = Velocity(txnCount1m: nat, txnCount1h: nat, amountSum24h: real,
                               distinctCountries24h: nat, distinctDevices24h: nat)

  datatype Profile = Profile(tenureDays: int, avgTicket: real, kycVerified: bool, chargebacks12m: int)

  datatype Enriched = Enriched(transaction: Transaction, velocity: Velocity, profile: Profile,
                               secondsSincePrev: Option<real>, kmFromPrev: Option<real>,
                               isNewDevice: bool, isForeign: bool)

  datatype Source = RULES | ML | GRAPH

  const EXPECTED: set<Source> := {RULES, ML, GRAPH}

  datatype Part = Part(score: real, reasons: seq<Reason>, degraded: bool)

  function Min(a: real, b: real): real { if a <= b then a else b }

  function Max(a: real, b: real): real { if a >= b then a else b }
}
