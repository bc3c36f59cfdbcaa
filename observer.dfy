/** The conversion observer: a sink told about every fallback to the default
    value and every conversion exception the engine swallows. `Observer` records
    what it is told, as the test suite's observer does; a null `Observer?` is the
    absent observer. */
module Observation {
  import opened Types

  datatype Notification =
    | FallbackToDefault(value: Value, targetType: Type, defaultValue: Value, format: FormatProvider, reason: ExceptionKind)
    | CaughtException(value: Value, targetType: Type, defaultValue: Value, format: FormatProvider, exception: ExceptionKind)

  /** What one conversion step does: its result (or the exception it throws)
      and the notifications it sends to a non-null observer, in order. */
  datatype Step = Step(outcome: Attempt<Value>, notes: seq<Notification>)

  class Observer {
    var notifications: seq<Notification>

    constructor ()
      ensures notifications == []
    {
      notifications := [];
    }

    method NotifyKnownFallbackToDefaultValue(value: Value, targetType: Type, defaultValue: Value, format: FormatProvider, reason: ExceptionKind)
      modifies this
      ensures notifications == old(notifications) + [FallbackToDefault(value, targetType, defaultValue, format, reason)]
    {
      notifications := notifications + [FallbackToDefault(value, targetType, defaultValue, format, reason)];
    }

    method NotifyCaughtConversionException(value: Value, targetType: Type, defaultValue: Value, format: FormatProvider, exception: ExceptionKind)
      modifies this
      ensures notifications == old(notifications) + [CaughtException(value, targetType, defaultValue, format, exception)]
    {
      notifications := notifications + [CaughtException(value, targetType, defaultValue, format, exception)];
    }
  }
}
