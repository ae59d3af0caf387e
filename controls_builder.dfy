/**
 * The settings-window helper: a vertical list of rows, each
 * `SettingsRowHeight` high, laid out by advancing the caller's `offsetY`;
 * a cache of text-field buffers keyed by control (`ValueBuffers`) so that a
 * half-typed number survives from frame to frame; and `ValueSetting`, a
 * value with a change callback.
 *
 * Everything IMGUI draws is left out. What a widget hands back (the number
 * after the text field, the checkbox state, whether the reset button was
 * clicked) is an input of the operation that draws it.
 */
module ControlsBuilder {
  import opened Wrappers
  import Util

  const SettingsRowHeight: real := 32.0
  const SettingsScrollbarWidth: real := 16.0

  /** The numeric types the settings window edits: `float` and `int`. */
  datatype NumValue = FloatValue(f: real) | IntValue(i: int)

  /** The two values have the same C# type. */
  predicate SameType(a: NumValue, b: NumValue)
  {
    a.FloatValue? == b.FloatValue?
  }

  /** The text being typed into a numeric field, and the value it was typed for. */
  class ValueBuffer {
    var buffer: Option<string>
    var value: NumValue

    constructor(value: NumValue)
      ensures this.value == value && buffer == None
    {
      this.value := value;
      buffer := None;
    }
  }

  /** What the numeric text field (foreign code) hands back, and whether the reset button was clicked. */
  datatype NumericInput = NumericInput(edited: NumValue, buffer: Option<string>, resetClicked: bool)

  /** A third of the view width, less four pixels, is the width of a label or a control. */
  function GetControlWidth(viewWidth: real): (w: real)
    ensures 3.0 * (w + 4.0) == viewWidth
  {
    viewWidth / 3.0 - 4.0
  }

  /** A mutable box around a dropdown's value. */
  class TargetWrapper<T> {
    var value: T

    constructor(value: T)
      ensures this.value == value
    {
      this.value := value;
    }
  }

  /** The static state of ControlsBuilder. */
  class Builder {
    var valueBuffers: map<string, ValueBuffer>
    var settingsViewHeight: real

    constructor()
      ensures valueBuffers == map[] && settingsViewHeight == 0.0
    {
      valueBuffers := map[];
      settingsViewHeight := 0.0;
    }

    /** Opens the scroll view; the rows are laid out in the rect's width less the scrollbar. */
    method Begin(width: real) returns (viewWidth: real)
      ensures viewWidth == width - SettingsScrollbarWidth
    {
      viewWidth := width - SettingsScrollbarWidth;
    }

    /** Closes the scroll view and sizes it for the next frame to the rows laid out, plus one row. */
    method End(offsetY: real)
      modifies this
      ensures settingsViewHeight == offsetY + SettingsRowHeight
      ensures valueBuffers == old(valueBuffers)
    {
      settingsViewHeight := offsetY + SettingsRowHeight;
    }

    /** A label row. */
    method CreateText(offsetY: real) returns (offsetY': real)
      ensures offsetY' == offsetY + SettingsRowHeight
    {
      offsetY' := offsetY + SettingsRowHeight;
    }

    /**
     * The buffer cached under key for a value of value's type: the cached
     * one, its text dropped if it was typed for another value, or else a
     * fresh one that replaces whatever was under key (an entry of the wrong
     * type is reported to the log).
     */
    method GetValueBuffer(key: string, value: NumValue) returns (vb: ValueBuffer, errorReported: bool)
      modifies this
      modifies if key in valueBuffers && SameType(valueBuffers[key].value, value) then {valueBuffers[key]} else {}
      ensures settingsViewHeight == old(settingsViewHeight)
      ensures key in valueBuffers && valueBuffers[key] == vb && vb.value == value
      ensures valueBuffers - {key} == old(valueBuffers) - {key}
      ensures key in old(valueBuffers) && SameType(old(valueBuffers[key].value), value) ==>
        && vb == old(valueBuffers[key])
        && vb.buffer == (if old(vb.value) != value then None else old(vb.buffer))
        && !errorReported
      ensures !(key in old(valueBuffers) && SameType(old(valueBuffers[key].value), value)) ==>
        && fresh(vb) && vb.buffer == None
        && (errorReported <==> key in old(valueBuffers))
      ensures forall b :: b in valueBuffers.Values ==> b in old(valueBuffers.Values) || fresh(b)
    {
      if key in valueBuffers {
        var found := valueBuffers[key];
        if SameType(found.value, value) {
          if found.value != value {
            found.buffer := None;
          }
          found.value := value;
          return found, false;
        }
        errorReported := true;
      } else {
        errorReported := false;
      }
      vb := new ValueBuffer(value);
      valueBuffers := valueBuffers[key := vb];
    }

    /** Forgets every cached buffer. */
    method ResetValueBuffers()
      modifies this
      ensures valueBuffers == map[]
      ensures settingsViewHeight == old(settingsViewHeight)
    {
      valueBuffers := map[];
    }

    /**
     * A numeric row: the label is highlighted when the value differs from
     * the default; the text field edits the value through the key's buffer;
     * the reset button, offered only for a modified value, brings back the
     * default and forgets the buffer.
     */
    method CreateNumeric(offsetY: real, viewWidth: real, value: NumValue, defaultValue: NumValue, key: string, input: NumericInput)
      returns (offsetY': real, result: NumValue, highlighted: bool)
      requires SameType(value, defaultValue) && SameType(input.edited, value)
      modifies this
      modifies if key in valueBuffers && SameType(valueBuffers[key].value, value) then {valueBuffers[key]} else {}
      ensures offsetY' == offsetY + SettingsRowHeight
      ensures highlighted <==> value != defaultValue
      ensures result == if value != defaultValue && input.resetClicked then defaultValue else input.edited
      ensures value != defaultValue && input.resetClicked ==> valueBuffers == old(valueBuffers) - {key}
      ensures !(value != defaultValue && input.resetClicked) ==>
        && key in valueBuffers && valueBuffers[key].value == value && valueBuffers[key].buffer == input.buffer
        && valueBuffers - {key} == old(valueBuffers) - {key}
      ensures settingsViewHeight == old(settingsViewHeight)
      ensures forall b :: b in valueBuffers.Values ==> b in old(valueBuffers.Values) || fresh(b)
    {
      var isModified := value != defaultValue;
      var vb, _ := GetValueBuffer(key, value);
      // Widgets.TextFieldNumeric: foreign code edits the value and the buffer's text.
      result := input.edited;
      vb.buffer := input.buffer;
      if isModified && input.resetClicked {
        result := defaultValue;
        valueBuffers := valueBuffers - {key};
      }
      offsetY' := offsetY + SettingsRowHeight;
      highlighted := isModified;
    }

    /** A checkbox row: `after` is the box's state once the user has clicked it, or not. */
    method CreateCheckbox(offsetY: real, viewWidth: real, value: bool, defaultValue: bool, after: bool, resetClicked: bool)
      returns (offsetY': real, result: bool, highlighted: bool)
      ensures offsetY' == offsetY + SettingsRowHeight
      ensures highlighted <==> value != defaultValue
      ensures result == if value != defaultValue && resetClicked then defaultValue else after
    {
      var isModified := value != defaultValue;
      result := after;
      if isModified && resetClicked {
        result := defaultValue;
      }
      offsetY' := offsetY + SettingsRowHeight;
      highlighted := isModified;
    }

    /**
     * A dropdown row. A menu choice is applied to the wrapper later, by the
     * menu's callback, so within this call only the reset button changes it.
     */
    method CreateDropdown<T(==)>(offsetY: real, viewWidth: real, wrapper: TargetWrapper<T>, defaultValue: T, resetClicked: bool)
      returns (offsetY': real, result: T, highlighted: bool)
      modifies wrapper
      ensures offsetY' == offsetY + SettingsRowHeight
      ensures highlighted <==> old(wrapper.value) != defaultValue
      ensures wrapper.value == if old(wrapper.value) != defaultValue && resetClicked then defaultValue else old(wrapper.value)
      ensures result == wrapper.value
    {
      var isModified := wrapper.value != defaultValue;
      if isModified && resetClicked {
        wrapper.value := defaultValue;
      }
      offsetY' := offsetY + SettingsRowHeight;
      result := wrapper.value;
      highlighted := isModified;
    }
  }

  /**
   * A named value with a default and a change callback. `actionCalls` is the
   * sequence of values the callback has been invoked with.
   */
  class ValueSetting<T(==,0)> {
    var name: string
    var caption: string
    var description: string
    var defaultValue: T
    var value: T
    var hasAction: bool
    var actionCalls: seq<T>

    /** Value is assigned before Action, so construction never invokes the callback. */
    constructor(name: string, caption: string, description: string, value: T, defaultValue: T, hasAction: bool)
      ensures this.name == name && this.caption == caption && this.description == description
      ensures this.value == value && this.defaultValue == defaultValue && this.hasAction == hasAction
      ensures actionCalls == []
    {
      this.name := name;
      this.caption := caption;
      this.description := description;
      this.hasAction := false;
      this.actionCalls := [];
      new;
      SetValue(value);
      this.defaultValue := defaultValue;
      this.hasAction := hasAction;
    }

    /** The `Value` setter: through Util.SetValue, so the callback runs once, and only on a real change. */
    method SetValue(v: T)
      modifies this
      ensures value == v
      ensures actionCalls == old(actionCalls) + if old(value) != v && hasAction then [v] else []
      ensures name == old(name) && caption == old(caption) && description == old(description)
      ensures defaultValue == old(defaultValue) && hasAction == old(hasAction)
    {
      var stored, invoked := Util.SetValue(value, v, hasAction);
      value := stored;
      if invoked.Some? {
        actionCalls := actionCalls + [invoked.value];
      }
    }
  }
}
