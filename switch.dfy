/**
 * The switch component builder (packages/core/src/components/switch.ts).
 *
 * A `Switch` holds a reference to a props object; every setter writes one
 * property of that object and returns the builder itself, and `options`
 * replaces the reference wholesale (so later setters write into the object
 * the caller passed in).
 */
module SwitchBuilder {
  import opened Wrappers

  datatype ComponentType = SwitchType | OtherType(name: string)
  datatype Size = Sm | Md | Lg
  datatype Color = DefaultColor | Primary | Secondary | SuccessColor | Warning | Danger

  /** The `SwitchProps` record: `key` and `componentType`, and optional properties. */
  datatype SwitchProps = SwitchProps(
    key: string,
    componentType: ComponentType,
    startText: Option<string>,
    endText: Option<string>,
    size: Option<Size>,
    color: Option<Color>,
    thumbIcon: Option<string>,
    startContent: Option<string>,
    endContent: Option<string>,
    isSelected: Option<bool>,
    defaultSelected: Option<bool>,
    isReadOnly: Option<bool>,
    isDisabled: Option<bool>,
    disableAnimation: Option<bool>)

  /** The optional properties a setter can write. */
  datatype Field =
    | StartTextField | EndTextField | SizeField | ColorField | ThumbIconField
    | StartContentField | EndContentField | IsSelectedField | DefaultSelectedField
    | IsReadOnlyField | IsDisabledField | DisableAnimationField

  /** One setter call with its argument. */
  datatype Setting =
    | StartText(text: string)
    | EndText(text: string)
    | SizeOf(size: Size)
    | ColorOf(color: Color)
    | ThumbIcon(icon: string)
    | StartContent(icon: string)
    | EndContent(icon: string)
    | Selected(flag: bool)
    | DefaultSelected(flag: bool)
    | Readonly(flag: bool)
    | Disabled(flag: bool)
    | DisableAnimation(flag: bool)

  /** The property each setter writes (`selected` → `isSelected`, `readonly` → `isReadOnly`, `disabled` → `isDisabled`). */
  function Target(s: Setting): Field {
    match s
    case StartText(_) => StartTextField
    case EndText(_) => EndTextField
    case SizeOf(_) => SizeField
    case ColorOf(_) => ColorField
    case ThumbIcon(_) => ThumbIconField
    case StartContent(_) => StartContentField
    case EndContent(_) => EndContentField
    case Selected(_) => IsSelectedField
    case DefaultSelected(_) => DefaultSelectedField
    case Readonly(_) => IsReadOnlyField
    case Disabled(_) => IsDisabledField
    case DisableAnimation(_) => DisableAnimationField
  }

  /** The value currently held in property `f`, read back as the setter call that would store it. */
  function Read(p: SwitchProps, f: Field): Option<Setting> {
    match f
    case StartTextField => if p.startText.Some? then Some(StartText(p.startText.value)) else None
    case EndTextField => if p.endText.Some? then Some(EndText(p.endText.value)) else None
    case SizeField => if p.size.Some? then Some(SizeOf(p.size.value)) else None
    case ColorField => if p.color.Some? then Some(ColorOf(p.color.value)) else None
    case ThumbIconField => if p.thumbIcon.Some? then Some(ThumbIcon(p.thumbIcon.value)) else None
    case StartContentField => if p.startContent.Some? then Some(StartContent(p.startContent.value)) else None
    case EndContentField => if p.endContent.Some? then Some(EndContent(p.endContent.value)) else None
    case IsSelectedField => if p.isSelected.Some? then Some(Selected(p.isSelected.value)) else None
    case DefaultSelectedField => if p.defaultSelected.Some? then Some(DefaultSelected(p.defaultSelected.value)) else None
    case IsReadOnlyField => if p.isReadOnly.Some? then Some(Readonly(p.isReadOnly.value)) else None
    case IsDisabledField => if p.isDisabled.Some? then Some(Disabled(p.isDisabled.value)) else None
    case DisableAnimationField => if p.disableAnimation.Some? then Some(DisableAnimation(p.disableAnimation.value)) else None
  }

  /** Two props records with the same key, type and properties are the same record. */
  lemma {:induction false} Extensionality(p: SwitchProps, q: SwitchProps)
    requires p.key == q.key && p.componentType == q.componentType
    requires forall f :: Read(p, f) == Read(q, f)
    ensures p == q
  {
    assert Read(p, StartTextField) == Read(q, StartTextField);
    assert Read(p, EndTextField) == Read(q, EndTextField);
    assert Read(p, SizeField) == Read(q, SizeField);
    assert Read(p, ColorField) == Read(q, ColorField);
    assert Read(p, ThumbIconField) == Read(q, ThumbIconField);
    assert Read(p, StartContentField) == Read(q, StartContentField);
    assert Read(p, EndContentField) == Read(q, EndContentField);
    assert Read(p, IsSelectedField) == Read(q, IsSelectedField);
    assert Read(p, DefaultSelectedField) == Read(q, DefaultSelectedField);
    assert Read(p, IsReadOnlyField) == Read(q, IsReadOnlyField);
    assert Read(p, IsDisabledField) == Read(q, IsDisabledField);
    assert Read(p, DisableAnimationField) == Read(q, DisableAnimationField);
  }

  /** The initial `_config` of `new Switch(key)`: the key, the switch type and no property set. */
  function Initial(key: string): (p: SwitchProps)
    ensures p.key == key && p.componentType == SwitchType
    ensures forall f :: Read(p, f) == None
  {
    SwitchProps(key, SwitchType, None, None, None, None, None, None, None, None, None, None, None, None)
  }

  /** The record after one setter call: its own property holds the argument and nothing else changes. */
  function Apply(p: SwitchProps, s: Setting): (r: SwitchProps)
    ensures r.key == p.key && r.componentType == p.componentType
    ensures Read(r, Target(s)) == Some(s)
    ensures forall f :: f != Target(s) ==> Read(r, f) == Read(p, f)
  {
    match s
    case StartText(t) => p.(startText := Some(t))
    case EndText(t) => p.(endText := Some(t))
    case SizeOf(z) => p.(size := Some(z))
    case ColorOf(c) => p.(color := Some(c))
    case ThumbIcon(i) => p.(thumbIcon := Some(i))
    case StartContent(i) => p.(startContent := Some(i))
    case EndContent(i) => p.(endContent := Some(i))
    case Selected(b) => p.(isSelected := Some(b))
    case DefaultSelected(b) => p.(defaultSelected := Some(b))
    case Readonly(b) => p.(isReadOnly := Some(b))
    case Disabled(b) => p.(isDisabled := Some(b))
    case DisableAnimation(b) => p.(disableAnimation := Some(b))
  }

  /** A chain of setter calls `b.s1(..).s2(..)…` applied left to right. */
  function ApplyAll(p: SwitchProps, calls: seq<Setting>): (r: SwitchProps)
    ensures r.key == p.key && r.componentType == p.componentType
  {
    if calls == [] then p else Apply(ApplyAll(p, calls[..|calls| - 1]), calls[|calls| - 1])
  }

  /** The last call in `calls` that writes property `f`, if any. */
  function LastWrite(calls: seq<Setting>, f: Field): (r: Option<Setting>)
    ensures r.None? <==> forall i :: 0 <= i < |calls| ==> Target(calls[i]) != f
    ensures r.Some? ==> Target(r.value) == f && r.value in calls
    ensures r.Some? ==> exists i :: 0 <= i < |calls| && calls[i] == r.value &&
                                    forall j :: i < j < |calls| ==> Target(calls[j]) != f
  {
    if calls == [] then None
    else if Target(calls[|calls| - 1]) == f then Some(calls[|calls| - 1])
    else LastWrite(calls[..|calls| - 1], f)
  }

  /** Last write wins: a second call to the same setter overrides the first. */
  lemma LastWriteWins(p: SwitchProps, first: Setting, second: Setting)
    requires Target(first) == Target(second)
    ensures Apply(Apply(p, first), second) == Apply(p, second)
  {
    var a := Apply(Apply(p, first), second);
    var b := Apply(p, second);
    forall f ensures Read(a, f) == Read(b, f) {
    }
    Extensionality(a, b);
  }

  /** Setters of different properties can be chained in either order. */
  lemma DistinctSettersCommute(p: SwitchProps, s: Setting, t: Setting)
    requires Target(s) != Target(t)
    ensures Apply(Apply(p, s), t) == Apply(Apply(p, t), s)
  {
    var a := Apply(Apply(p, s), t);
    var b := Apply(Apply(p, t), s);
    forall f ensures Read(a, f) == Read(b, f) {
      if f == Target(s) {
        assert Read(a, f) == Some(s) == Read(b, f);
      } else if f == Target(t) {
        assert Read(a, f) == Some(t) == Read(b, f);
      } else {
        assert Read(a, f) == Read(p, f) == Read(b, f);
      }
    }
    Extensionality(a, b);
  }

  /** After a chain of calls, each property holds the argument of the last call that wrote it, or its old value. */
  lemma {:induction false} ApplyAllRead(p: SwitchProps, calls: seq<Setting>, f: Field)
    ensures Read(ApplyAll(p, calls), f) == if LastWrite(calls, f).Some? then LastWrite(calls, f) else Read(p, f)
  {
    if calls != [] {
      ApplyAllRead(p, calls[..|calls| - 1], f);
    }
  }

  /** The object `_config` points at; `options(o)` shares it with the caller. */
  class PropsObject {
    var props: SwitchProps

    constructor (p: SwitchProps)
      ensures props == p
    {
      props := p;
    }
  }

  /** The `Switch` builder. */
  class Switch {
    var config: PropsObject

    /** `new Switch(key)`: a fresh props object holding `Initial(key)`. */
    constructor (key: string)
      ensures fresh(config) && config.props == Initial(key)
    {
      config := new PropsObject(Initial(key));
    }

    /** Performs one setter call on the shared props object; it is the body of every setter below. */
    method Set(s: Setting) returns (self: Switch)
      modifies config
      ensures self == this && config == old(config)
      ensures config.props == Apply(old(config.props), s)
    {
      config.props := Apply(config.props, s);
      self := this;
    }

    method SetStartText(text: string) returns (self: Switch)
      modifies config
      ensures self == this && config == old(config)
      ensures config.props == old(config.props).(startText := Some(text))
    {
      self := Set(StartText(text));
    }

    method SetEndText(text: string) returns (self: Switch)
      modifies config
      ensures self == this && config == old(config)
      ensures config.props == old(config.props).(endText := Some(text))
    {
      self := Set(EndText(text));
    }

    method SetSize(size: Size) returns (self: Switch)
      modifies config
      ensures self == this && config == old(config)
      ensures config.props == old(config.props).(size := Some(size))
    {
      self := Set(SizeOf(size));
    }

    method SetColor(color: Color) returns (self: Switch)
      modifies config
      ensures self == this && config == old(config)
      ensures config.props == old(config.props).(color := Some(color))
    {
      self := Set(ColorOf(color));
    }

    method SetThumbIcon(icon: string) returns (self: Switch)
      modifies config
      ensures self == this && config == old(config)
      ensures config.props == old(config.props).(thumbIcon := Some(icon))
    {
      self := Set(ThumbIcon(icon));
    }

    method SetStartContent(icon: string) returns (self: Switch)
      modifies config
      ensures self == this && config == old(config)
      ensures config.props == old(config.props).(startContent := Some(icon))
    {
      self := Set(StartContent(icon));
    }

    method SetEndContent(icon: string) returns (self: Switch)
      modifies config
      ensures self == this && config == old(config)
      ensures config.props == old(config.props).(endContent := Some(icon))
    {
      self := Set(EndContent(icon));
    }

    /** `selected(v = true)` writes `isSelected`. */
    method SetSelected(selected: bool := true) returns (self: Switch)
      modifies config
      ensures self == this && config == old(config)
      ensures config.props == old(config.props).(isSelected := Some(selected))
    {
      self := Set(Selected(selected));
    }

    method SetDefaultSelected(selected: bool := true) returns (self: Switch)
      modifies config
      ensures self == this && config == old(config)
      ensures config.props == old(config.props).(defaultSelected := Some(selected))
    {
      self := Set(DefaultSelected(selected));
    }

    /** `readonly(v = true)` writes `isReadOnly`. */
    method SetReadonly(readonly: bool := true) returns (self: Switch)
      modifies config
      ensures self == this && config == old(config)
      ensures config.props == old(config.props).(isReadOnly := Some(readonly))
    {
      self := Set(Readonly(readonly));
    }

    /** `disabled(v = true)` writes `isDisabled`. */
    method SetDisabled(disabled: bool := true) returns (self: Switch)
      modifies config
      ensures self == this && config == old(config)
      ensures config.props == old(config.props).(isDisabled := Some(disabled))
    {
      self := Set(Disabled(disabled));
    }

    method SetDisableAnimation(disable: bool := true) returns (self: Switch)
      modifies config
      ensures self == this && config == old(config)
      ensures config.props == old(config.props).(disableAnimation := Some(disable))
    {
      self := Set(DisableAnimation(disable));
    }

    /** `options(o)`: `_config` now is `o` itself, not a copy; the object it held before is untouched. */
    method Options(o: PropsObject) returns (self: Switch)
      modifies this`config
      ensures self == this && config == o
    {
      config := o;
      self := this;
    }
  }

  /** `switchComponent.create(key)` */
  method Create(key: string) returns (s: Switch)
    ensures fresh(s) && fresh(s.config)
    ensures s.config.props == Initial(key)
  {
    s := new Switch(key);
  }

  /** `switchComponent.options(key, o)`: the result's props are `o`'s, and `key` is discarded. */
  method CreateWithOptions(key: string, o: PropsObject) returns (s: Switch)
    ensures fresh(s) && s.config == o && o.props == old(o.props)
  {
    s := new Switch(key);
    s := s.Options(o);
  }

  /** Setters called on a builder made by `options` write into the caller's object. */
  method OptionsAliasing(key: string, o: PropsObject, text: string) returns (s: Switch)
    modifies o
    ensures s.config == o && o.props == old(o.props).(startText := Some(text))
  {
    s := CreateWithOptions(key, o);
    s := s.SetStartText(text);
  }
}
