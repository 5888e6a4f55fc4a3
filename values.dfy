/** The closed vocabularies of CLF attribute values. Each enumeration is built from
    its string value the way a Python `Enum(value)` call is: case-sensitively, and
    failing (a ConversionError here) for any string that is not a member's value. */
module Values {
  import opened Errors

  /** Python `E(v)` for an enumeration whose members are found by `fromValue`: a
      ConversionError when `v` is absent or names no member. */
  function EnumOf<E>(fromValue: string -> Option<E>, v: Option<string>): (r: Result<E>)
    ensures r.Success? <==> v.Some? && fromValue(v.value).Some?
    ensures r.Success? ==> fromValue(v.value) == Some(r.value)
    ensures r.Failure? ==> r.error == ConversionError
  {
    match v
    case None => Failure(ConversionError)
    case Some(s) =>
      match fromValue(s)
      case Some(e) => Success(e)
      case None => Failure(ConversionError)
  }

  /** 2 to the power `n`. */
  function Pow2(n: nat): (r: nat)
    ensures r >= 1
  {
    if n == 0 then 1 else 2 * Pow2(n - 1)
  }

  /** The sample encodings a process node reads and writes. */
  datatype BitDepth = I8 | I10 | I12 | I16 | F16 | F32 {

    function Value(): string {
      match this
      case I8 => "8i"
      case I10 => "10i"
      case I12 => "12i"
      case I16 => "16i"
      case F16 => "16f"
      case F32 => "32f"
    }

    /** The number of bits the value string names. */
    function Bits(): nat {
      match this
      case I8 => 8
      case I10 => 10
      case I12 => 12
      case I16 => 16
      case F16 => 16
      case F32 => 32
    }

    /** An integer encoding: its value string ends in "i". */
    predicate IsInteger() {
      Value()[|Value()| - 1] == 'i'
    }

    /** `BitDepth(s)`: the member whose value is `s`, if there is one. */
    static function FromValue(s: string): (r: Option<BitDepth>)
      ensures r.Some? ==> r.value.Value() == s
      ensures forall b: BitDepth :: b.Value() == s ==> r == Some(b)
    {
      match s
      case "8i" => Some(I8)
      case "10i" => Some(I10)
      case "12i" => Some(I12)
      case "16i" => Some(I16)
      case "16f" => Some(F16)
      case "32f" => Some(F32)
      case _ => None
    }

    /** `scale_factor`: the divisor that normalises a code value to 0..1, the largest
        n-bit code for an n-bit integer encoding and 1.0 for a float encoding. The
        source's NotImplementedError branch is unreachable: the match is exhaustive. */
    function ScaleFactor(): (r: real)
      ensures r >= 1.0
      ensures IsInteger() ==> r == (Pow2(Bits()) - 1) as real
      ensures !IsInteger() ==> r == 1.0
    {
      match this
      case I8 => (Pow2(8) - 1) as real
      case I10 => (Pow2(10) - 1) as real
      case I12 => (Pow2(12) - 1) as real
      case I16 => (Pow2(16) - 1) as real
      case F16 => 1.0
      case F32 => 1.0
    }
  }

  /** The members of BitDepth in declaration order. */
  const BitDepthMembers: seq<BitDepth> := [I8, I10, I12, I16, F16, F32]

  /** `BitDepth.all()`: the value strings of every member, in declaration order. */
  function AllBitDepths(): (r: seq<string>)
    ensures r == ["8i", "10i", "12i", "16i", "16f", "32f"]
    ensures forall s :: s in r <==> BitDepth.FromValue(s).Some?
    ensures forall i, j :: 0 <= i < j < |r| ==> r[i] != r[j]
  {
    seq(|BitDepthMembers|, i requires 0 <= i < |BitDepthMembers| => BitDepthMembers[i].Value())
  }

  /** The doctests of `scale_factor`. */
  lemma ScaleFactorExamples()
    ensures 255.0 / I8.ScaleFactor() == 1.0
    ensures 0.5 * I8.ScaleFactor() == 127.5
    ensures 1023.0 / I10.ScaleFactor() == 1.0
    ensures 1.0 / F16.ScaleFactor() == 1.0
  {
  }

  datatype Channel = R | G | B {
    function Value(): string {
      match this
      case R => "R"
      case G => "G"
      case B => "B"
    }

    static function FromValue(s: string): (r: Option<Channel>)
      ensures r.Some? ==> r.value.Value() == s
      ensures forall c: Channel :: c.Value() == s ==> r == Some(c)
    {
      match s
      case "R" => Some(R)
      case "G" => Some(G)
      case "B" => Some(B)
      case _ => None
    }
  }

  datatype Interpolation1D = Linear {
    function Value(): string {
      match this
      case Linear => "linear"
    }

    static function FromValue(s: string): (r: Option<Interpolation1D>)
      ensures r.Some? ==> r.value.Value() == s
      ensures forall i: Interpolation1D :: i.Value() == s ==> r == Some(i)
    {
      match s
      case "linear" =>
        assert forall i: Interpolation1D :: i.Value() == s ==> i == Linear;
        Some(Linear)
      case _ => None
    }
  }

  datatype Interpolation3D = Trilinear | Tetrahedral {
    function Value(): string {
      match this
      case Trilinear => "trilinear"
      case Tetrahedral => "tetrahedral"
    }

    static function FromValue(s: string): (r: Option<Interpolation3D>)
      ensures r.Some? ==> r.value.Value() == s
      ensures forall i: Interpolation3D :: i.Value() == s ==> r == Some(i)
    {
      match s
      case "trilinear" => Some(Trilinear)
      case "tetrahedral" => Some(Tetrahedral)
      case _ => None
    }
  }

  datatype AscCdlStyle = Fwd | Rev | FwdNoClamp | RevNoClamp {
    function Value(): string {
      match this
      case Fwd => "Fwd"
      case Rev => "Rev"
      case FwdNoClamp => "FwdNoClamp"
      case RevNoClamp => "RevNoClamp"
    }

    static function FromValue(s: string): (r: Option<AscCdlStyle>)
      ensures r.Some? ==> r.value.Value() == s
      ensures forall st: AscCdlStyle :: st.Value() == s ==> r == Some(st)
    {
      match s
      case "Fwd" => Some(Fwd)
      case "Rev" => Some(Rev)
      case "FwdNoClamp" => Some(FwdNoClamp)
      case "RevNoClamp" => Some(RevNoClamp)
      case _ => None
    }
  }
}
