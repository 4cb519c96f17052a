/** The types of the language, shared by every pass. */
module Types {
  datatype Ty =
    | I8 | I16 | I32 | I64 | U8 | U16 | U32 | U64 | Usize
    | F64 | Dec128 | Bool | Unit | Sandbox | Str | Tcp | TcpListener | File | Json | Db | Mq
    | Vector(elem: Ty, len: nat)
    | Matrix(elem: Ty, rows: nat, cols: nat)
    | Box(inner: Ty)
    | Froze(inner: Ty)
    | Ref(inner: Ty)
    | Thread(inner: Ty)
    | Channel(inner: Ty)
    | Handle(kind: string)
    | Fn(params: seq<Ty>, ret: Ty)
    | Named(name: string, args: seq<Ty>)
    | Error
  {
    /** A plugin handle is held as an integer id and is not excluded here. */
    predicate IsInteger() {
      I8? || I16? || I32? || I64? || U8? || U16? || U32? || U64? || Usize? || Handle?
    }

    function Lo(): int {
      if I8? then -0x80
      else if I16? then -0x8000
      else if I32? then -0x8000_0000
      else if U8? || U16? || U32? || U64? || Usize? then 0
      else -0x8000_0000_0000_0000
    }

    /** Unsigned 64-bit values are still held in an i64, so their ceiling is the i64 maximum. */
    function Hi(): int {
      if I8? then 0x7F
      else if I16? then 0x7FFF
      else if I32? then 0x7FFF_FFFF
      else if U8? then 0xFF
      else if U16? then 0xFFFF
      else if U32? then 0xFFFF_FFFF
      else 0x7FFF_FFFF_FFFF_FFFF
    }

    predicate InRange(v: int) { Lo() <= v <= Hi() }

    /** Affine without looking at any declaration: exactly one owner at a time. */
    predicate IsBaseAffine() {
      Box? || Thread? || Sandbox? || Tcp? || TcpListener? || File? || Db? || Mq? || Handle?
    }
  }
}
