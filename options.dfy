/** Ripple options: the constructor's defaulting with JavaScript `||`, and the shallow
    merge of `updateOptions` (`{ ...current, ...partial }`). Numbers are JavaScript numbers
    read as reals; a string is falsy exactly when empty, a number exactly when zero. */
module OptionRules {
  import opened Common

  /** The effective options of the two TypeScript revisions. */
  datatype Options = Options(
    color: string, size: real, duration: real, initialOpacity: real, scale: real, easing: string)

  /** An options argument: every field may be omitted. */
  datatype Partial = Partial(
    color: Option<string>, size: Option<real>, duration: Option<real>,
    initialOpacity: Option<real>, scale: Option<real>, easing: Option<string>)

  /** The effective options of the oldest revision, which has no easing. */
  datatype LegacyOptions = LegacyOptions(
    color: string, size: real, duration: real, initialOpacity: real, scale: real)

  datatype LegacyPartial = LegacyPartial(
    color: Option<string>, size: Option<real>, duration: Option<real>,
    initialOpacity: Option<real>, scale: Option<real>)

  predicate TruthyString(s: string) { s != "" }
  predicate TruthyNumber(n: real) { n != 0.0 }

  /** `v || d` for an optional string field. */
  function OrString(v: Option<string>, d: string): string
  {
    if v.Some? && TruthyString(v.value) then v.value else d
  }

  /** `v || d` for an optional number field. */
  function OrNumber(v: Option<real>, d: real): real
  {
    if v.Some? && TruthyNumber(v.value) then v.value else d
  }

  /** The field of a spread `{ ...cur, ...p }`: a present property overrides. */
  function Pick<T>(cur: T, v: Option<T>): T
  {
    if v.Some? then v.value else cur
  }

  function WithDefaults(p: Partial, d: Options): Options
  {
    Options(OrString(p.color, d.color), OrNumber(p.size, d.size), OrNumber(p.duration, d.duration),
      OrNumber(p.initialOpacity, d.initialOpacity), OrNumber(p.scale, d.scale), OrString(p.easing, d.easing))
  }

  function Merge(o: Options, p: Partial): Options
  {
    Options(Pick(o.color, p.color), Pick(o.size, p.size), Pick(o.duration, p.duration),
      Pick(o.initialOpacity, p.initialOpacity), Pick(o.scale, p.scale), Pick(o.easing, p.easing))
  }

  /** The options argument that supplies every field of `o`. */
  function Full(o: Options): Partial
  {
    Partial(Some(o.color), Some(o.size), Some(o.duration), Some(o.initialOpacity), Some(o.scale), Some(o.easing))
  }

  const NoOptions := Partial(None, None, None, None, None, None)

  /** The argument `{ ...p, ...q }`: q's present fields over p's. */
  function Overlay(p: Partial, q: Partial): Partial
  {
    Partial(if q.color.Some? then q.color else p.color,
      if q.size.Some? then q.size else p.size,
      if q.duration.Some? then q.duration else p.duration,
      if q.initialOpacity.Some? then q.initialOpacity else p.initialOpacity,
      if q.scale.Some? then q.scale else p.scale,
      if q.easing.Some? then q.easing else p.easing)
  }

  predicate AllTruthy(o: Options)
  {
    TruthyString(o.color) && TruthyNumber(o.size) && TruthyNumber(o.duration)
    && TruthyNumber(o.initialOpacity) && TruthyNumber(o.scale) && TruthyString(o.easing)
  }

  /** With truthy defaults, construction never yields a falsy option. */
  lemma WithDefaultsTruthy(p: Partial, d: Options)
    requires AllTruthy(d)
    ensures AllTruthy(WithDefaults(p, d))
  {
  }

  /** Constructing from a complete, truthy option set keeps it; from nothing gives the defaults. */
  lemma WithDefaultsKeepsTruthy(o: Options, d: Options)
    ensures AllTruthy(o) ==> WithDefaults(Full(o), d) == o
    ensures WithDefaults(NoOptions, d) == d
  {
  }

  /** Re-applying the defaults to effective options changes nothing. */
  lemma WithDefaultsIdempotent(p: Partial, d: Options)
    requires AllTruthy(d)
    ensures WithDefaults(Full(WithDefaults(p, d)), d) == WithDefaults(p, d)
  {
    WithDefaultsTruthy(p, d);
  }

  /** Merging nothing is the identity, merging a complete set replaces, and merging twice is merging once. */
  lemma MergeLaws(o: Options, o': Options, p: Partial)
    ensures Merge(o, NoOptions) == o
    ensures Merge(o, Full(o')) == o'
    ensures Merge(Merge(o, p), p) == Merge(o, p)
  {
  }

  /** Two successive updates are one update with the combined argument. */
  lemma MergeOverlay(o: Options, p: Partial, q: Partial)
    ensures Merge(Merge(o, p), q) == Merge(o, Overlay(p, q))
  {
  }

  /** A falsy supplied value is replaced by the constructor but kept by `updateOptions`. */
  lemma ZeroSurvivesMergeOnly(o: Options, d: Options)
    requires TruthyNumber(d.size)
    ensures var p := NoOptions.(size := Some(0.0));
      WithDefaults(p, d).size == d.size && Merge(o, p).size == 0.0
  {
  }

  function LegacyWithDefaults(p: LegacyPartial, d: LegacyOptions): LegacyOptions
  {
    LegacyOptions(OrString(p.color, d.color), OrNumber(p.size, d.size), OrNumber(p.duration, d.duration),
      OrNumber(p.initialOpacity, d.initialOpacity), OrNumber(p.scale, d.scale))
  }

  function LegacyMerge(o: LegacyOptions, p: LegacyPartial): LegacyOptions
  {
    LegacyOptions(Pick(o.color, p.color), Pick(o.size, p.size), Pick(o.duration, p.duration),
      Pick(o.initialOpacity, p.initialOpacity), Pick(o.scale, p.scale))
  }

  const NoLegacyOptions := LegacyPartial(None, None, None, None, None)

  /** An options argument of the oldest revision, read as one of the later revisions that omits easing. */
  function Widen(p: LegacyPartial): Partial
  {
    Partial(p.color, p.size, p.duration, p.initialOpacity, p.scale, None)
  }

  /** The five options the oldest revision has. */
  function Narrow(o: Options): LegacyOptions
  {
    LegacyOptions(o.color, o.size, o.duration, o.initialOpacity, o.scale)
  }

  function LegacyFull(o: LegacyOptions): LegacyPartial
  {
    LegacyPartial(Some(o.color), Some(o.size), Some(o.duration), Some(o.initialOpacity), Some(o.scale))
  }

  predicate LegacyAllTruthy(o: LegacyOptions)
  {
    TruthyString(o.color) && TruthyNumber(o.size) && TruthyNumber(o.duration)
    && TruthyNumber(o.initialOpacity) && TruthyNumber(o.scale)
  }

  /** On the five shared options, the oldest revision defaults and merges exactly as the later ones. */
  lemma LegacyAgrees(p: LegacyPartial, d: Options, o: Options)
    ensures LegacyWithDefaults(p, Narrow(d)) == Narrow(WithDefaults(Widen(p), d))
    ensures LegacyMerge(Narrow(o), p) == Narrow(Merge(o, Widen(p)))
  {
  }

  /** Hence its defaulting, too, never yields a falsy option from truthy defaults, keeps
      effective options as they are, and gives the defaults when nothing is supplied. */
  lemma LegacyWithDefaultsLaws(p: LegacyPartial, d: LegacyOptions)
    requires LegacyAllTruthy(d)
    ensures LegacyAllTruthy(LegacyWithDefaults(p, d))
    ensures LegacyWithDefaults(LegacyFull(LegacyWithDefaults(p, d)), d) == LegacyWithDefaults(p, d)
    ensures LegacyWithDefaults(NoLegacyOptions, d) == d
  {
    var full := Options(d.color, d.size, d.duration, d.initialOpacity, d.scale, "ease-out");
    assert Narrow(full) == d;
    LegacyAgrees(p, full, full);
    WithDefaultsTruthy(Widen(p), full);
  }

  /** The oldest revision's merge: no fields keep everything, a complete set replaces everything, and it is idempotent. */
  lemma LegacyMergeLaws(o: LegacyOptions, o': LegacyOptions, p: LegacyPartial)
    ensures LegacyMerge(o, NoLegacyOptions) == o
    ensures LegacyMerge(o, LegacyFull(o')) == o'
    ensures LegacyMerge(LegacyMerge(o, p), p) == LegacyMerge(o, p)
  {
  }
}
