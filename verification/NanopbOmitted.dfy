/** What the encoder leaves out: exactly the fields that decoding sets by itself, but for a few types
    whose defaults it does not recognize (pb_encode.c). */
module NanopbOmitted {
  import opened Dbformat
  import opened Coding
  import opened NanopbWire
  import opened Nanopb
  import opened NanopbRoundTrip

  /** A value of this type never counts as zero in a field without a has-flag. */
  ghost predicate ForcedType(lt: LType)
    decreases lt, 0
  {
    match lt
    case FixedBytesType(size) => size > 0
    case SubType(fields) => exists i :: 0 <= i < |fields| && NeverZero(fields[i])
    case _ => false
  }

  /** A field that keeps the message it is in from counting as zero. */
  ghost predicate NeverZero(f: Field)
    decreases f, 1
  {
    match f.htype
    case Required => true
    case Repeated(_, counted) => !counted
    case OneOf(_) => false
    case Optional(hasFlag) => !hasFlag && ForcedType(f.ltype)
  }

  /** A field that is written even where its value is the default. */
  ghost predicate Forced(f: Field) {
    match f.htype
    case Required => true
    case Repeated(max, counted) => !counted && max > 0
    case OneOf(_) => false
    case Optional(hasFlag) => !hasFlag && ForcedType(f.ltype)
  }

  /** pb_check_proto3_default_value: zero is what decoding leaves where nothing is written, unless the
      type is one whose zero it does not recognize. */
  lemma {:induction false} ZeroExactlyWhen(lt: LType, v: Value)
    requires InBounds(lt, v)
    ensures Zero(lt, v) <==> Normal(lt, v) == ZeroOf(lt) && !ForcedType(lt)
    decreases lt, 0
  {
    match v
    case Int(n) =>
    case Raw(b) =>
      if lt.FixedBytesType? && lt.size == 0 {
        assert b == seq(lt.size, _ => 0);
      }
    case Msg(cs) =>
      forall i | 0 <= i < |cs|
        ensures ZeroField(lt.fields[i], cs[i]) <==> NormalField(lt.fields[i], cs[i]) == Default(lt.fields[i]) && !NeverZero(lt.fields[i])
      {
        assert FieldInBounds(lt.fields[i], cs[i]);
        ZeroFieldExactlyWhen(lt.fields[i], cs[i]);
      }
      SameMessage(lt.fields, cs);
  }

  lemma {:induction false} SameMessage(fields: seq<Field>, cs: seq<Content>)
    requires |cs| == |fields|
    ensures NormalAll(fields, cs) == Defaults(fields)
            <==> forall i | 0 <= i < |fields| :: NormalField(fields[i], cs[i]) == Default(fields[i])
  {
    if NormalAll(fields, cs) == Defaults(fields) {
      forall i | 0 <= i < |fields| ensures NormalField(fields[i], cs[i]) == Default(fields[i]) {
        assert NormalAll(fields, cs)[i] == Defaults(fields)[i];
      }
    }
  }

  lemma {:induction false} ZeroFieldExactlyWhen(f: Field, c: Content)
    requires FieldInBounds(f, c)
    ensures ZeroField(f, c) <==> NormalField(f, c) == Default(f) && !NeverZero(f)
    decreases f, 1
  {
    if c.Single? {
      ZeroExactlyWhen(f.ltype, c.value);
    } else {
      ManyExactlyWhen(f, c);
    }
  }

  lemma {:induction false} ManyExactlyWhen(f: Field, c: Content)
    requires FieldInBounds(f, c) && c.Many?
    ensures f.htype.counted ==> (NormalField(f, c) == Default(f) <==> c.items == [])
  {
    if c.items == [] {
      EmptyIsDefault(f);
    }
  }

  lemma {:induction false} WritesSomething(f: Field, c: Content)
    ensures c.Single? ==> (EncField(f, c) == [] <==> !Nanopb.Written(f, c))
    ensures c.Many? ==> (EncField(f, c) == [] <==> c.items == [])
  {
    if c.Many? && c.items != [] && !Packable(f.ltype) {
      assert |EncUnpacked(f, c.items)| >= |Key(f.tag, WireType(f.ltype))| > 0;
    }
  }

  /** pb_encode leaves a field out if and only if it holds what decoding puts there anyway; written in
      any case are required fields, arrays without a count, and fields without a has-flag whose type has
      bytes of a fixed length or, in a submessage, such fields again. */
  lemma {:induction false} OmittedExactlyWhen(f: Field, c: Content)
    requires FieldInBounds(f, c)
    ensures EncField(f, c) == [] <==> NormalField(f, c) == Default(f) && !Forced(f)
  {
    WritesSomething(f, c);
    if c.Single? {
      ZeroExactlyWhen(f.ltype, c.value);
    } else {
      ManyExactlyWhen(f, c);
      if c.items == [] {
        EmptyIsDefault(f);
      }
    }
  }

  /** A message is encoded as nothing at all if and only if all its fields are left out. */
  lemma {:induction false} EmptyExactlyWhen(fields: seq<Field>, cs: seq<Content>, k: nat)
    requires MessageOk(fields, cs) && k <= |fields|
    ensures EncFrom(fields, cs, k) == []
            <==> forall i | k <= i < |fields| :: NormalField(fields[i], cs[i]) == Default(fields[i]) && !Forced(fields[i])
    decreases |fields| - k
  {
    if k < |fields| {
      assert FieldInBounds(fields[k], cs[k]);
      OmittedExactlyWhen(fields[k], cs[k]);
      EmptyExactlyWhen(fields, cs, k + 1);
    }
  }
}
