/** The registration lifetime: how it is kept as text in the endpoint, and when the
    registration is refreshed. */
module Registration {
  import opened CommonTypes
  import opened CText
  import IntegerText

  const OPTIMUM_LIFETIME := 3600
  const REDUCE_LIFETIME := 900
  /** A uint32_t passed as an int. */
  function AsInt(n: int): (r: int)
    ensures 0 <= n < 0x8000_0000 ==> r == n
    ensures 0x8000_0000 <= n < 0x1_0000_0000 ==> r == n - 0x1_0000_0000
  {
    if n % 0x1_0000_0000 < 0x8000_0000 then n % 0x1_0000_0000 else n % 0x1_0000_0000 - 0x1_0000_0000
  }

  /** Seconds after which a registration is refreshed, from the lifetime's text. */
  function RefreshTime(text: seq<byte>): (seconds: nat) {
    var value := ParseInteger(text) % TWO_TO_THE_64;
    if value >= OPTIMUM_LIFETIME then value - REDUCE_LIFETIME else value * 3 / 4
  }

  function LifetimeText(lifetime: int): seq<byte> { IntegerText.Printed(AsInt(lifetime)) + [0] }

  /** The lifetime as it comes back from its text, in 64 bits. */
  lemma LifetimeComesBack(lifetime: int)
    requires 0 <= lifetime < 0x1_0000_0000
    ensures ParseInteger(LifetimeText(lifetime)) % TWO_TO_THE_64 ==
            if lifetime < 0x8000_0000 then lifetime else lifetime - 0x1_0000_0000 + TWO_TO_THE_64
  {
    IntegerText.PrintingIsInvertible(AsInt(lifetime), [0]);
    hide ParseInteger, IntegerText.Printed, LifetimeText;
  }

  /** The refresh leaves a quarter of the lifetime, rounded up, but at most 900 seconds. */
  lemma RefreshMargin(lifetime: int)
    requires 0 <= lifetime < 0x8000_0000
    ensures var margin := lifetime - RefreshTime(LifetimeText(lifetime));
      margin == if lifetime <= 3600 then (lifetime + 3) / 4 else 900
    ensures lifetime * 3 / 4 <= RefreshTime(LifetimeText(lifetime))
  {
    LifetimeComesBack(lifetime);
    hide ParseInteger, LifetimeText, AsInt;
  }

  /** A registration is refreshed before it expires exactly if its lifetime is positive
      as an int: from 2^31 seconds on the text is that of a negative number. */
  lemma RefreshedBeforeExpiryExactlyWhen(lifetime: int)
    requires 0 <= lifetime < 0x1_0000_0000
    ensures RefreshTime(LifetimeText(lifetime)) < lifetime <==> 1 <= lifetime < 0x8000_0000
  {
    LifetimeComesBack(lifetime);
    hide ParseInteger, LifetimeText, AsInt;
  }

  /** A longer lifetime is never refreshed sooner. */
  lemma RefreshIsMonotone(shorter: int, longer: int)
    requires 0 <= shorter <= longer < 0x8000_0000
    ensures RefreshTime(LifetimeText(shorter)) <= RefreshTime(LifetimeText(longer))
  {
    LifetimeComesBack(shorter);
    LifetimeComesBack(longer);
    hide ParseInteger, LifetimeText, AsInt;
  }

  /** M2MNsdlInterface, as far as it keeps the lifetime. */
  class M2MNsdlInterface {
    // _endpoint->lifetime_ptr and lifetime_len
    var lifetimePtr: array?<byte>
    var lifetimeLen: nat
    // what the registration timer was last started with, in milliseconds
    var registrationTimer: nat

    ghost predicate Valid()
      reads this, lifetimePtr
    {
      lifetimePtr != null ==> lifetimeLen < lifetimePtr.Length && lifetimePtr[lifetimeLen] == 0
    }

    /** The lifetime's text with its terminating NUL. */
    ghost function Text(): seq<byte>
      requires Valid()
      reads this, lifetimePtr
    {
      if lifetimePtr == null then [] else lifetimePtr[..lifetimeLen + 1]
    }

    /** create_endpoint: without a positive lifetime the text is left out. */
    constructor (lifetime: int)
      requires -0x8000_0000 <= lifetime < 0x8000_0000
      ensures Valid() && (lifetimePtr != null ==> fresh(lifetimePtr))
      ensures Text() == if lifetime > 0 then LifetimeText(lifetime) else []
    {
      lifetimePtr, lifetimeLen := null, 0;
      new;
      if lifetime > 0 {
        SetEndpointLifetimeBuffer(lifetime);
      }
    }

    method SetEndpointLifetimeBuffer(lifetime: int)
      requires -0x8000_0000 <= lifetime < 0x8000_0000
      modifies this
      ensures Valid() && lifetimePtr != null && fresh(lifetimePtr)
      ensures Text() == IntegerText.Printed(lifetime) + [0]
      ensures registrationTimer == old(registrationTimer)
    {
      IntegerText.PrintingIsInvertible(lifetime, []);
      var buffer := new byte[20 + 1];
      var size := IntegerText.ItoaC(lifetime, buffer);
      var copy := new byte[size + 1];
      forall k | 0 <= k < size {
        copy[k] := buffer[k];
      }
      copy[size] := 0;
      lifetimePtr, lifetimeLen := copy, size;
      assert copy[..size + 1] == buffer[..size] + [0];
    }

    method RegistrationTime() returns (value: nat)
      requires Valid()
      ensures value == RefreshTime(Text())
    {
      value := 0;
      if lifetimePtr != null {
        value := ParseInteger(lifetimePtr[..lifetimeLen + 1]) % TWO_TO_THE_64;
      }
      if value >= OPTIMUM_LIFETIME {
        value := value - REDUCE_LIFETIME;
      } else {
        value := value * 3 / 4;
      }
    }

    /** The lifetime part of send_update_registration: 0 keeps the lifetime; any other
        replaces it and restarts the registration timer. */
    method SendUpdateRegistration(lifetime: int)
      requires Valid() && 0 <= lifetime < 0x1_0000_0000
      modifies this
      ensures Valid()
      ensures lifetime == 0 ==>
                lifetimePtr == old(lifetimePtr) && Text() == old(Text()) && registrationTimer == old(registrationTimer)
      ensures lifetime != 0 ==>
                Text() == LifetimeText(lifetime) && registrationTimer == RefreshTime(LifetimeText(lifetime)) * 1000 % TWO_TO_THE_64
    {
      if lifetime != 0 {
        lifetimePtr := null;
        lifetimeLen := 0;
        SetEndpointLifetimeBuffer(AsInt(lifetime));
        var time := RegistrationTime();
        registrationTimer := time * 1000 % TWO_TO_THE_64;
      }
    }
  }
}
