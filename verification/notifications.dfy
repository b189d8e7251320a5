/**
 * The notification store behind the toasts and dialogs: one toast, one dialog and a loading flag,
 * set by the `show*` callbacks and cleared by the `hide*` ones, with the defaults each callback
 * merges under the caller's options.
 *
 * An object literal built with spread (`{ duration: 3000, ...options }`) takes each field from
 * the last object that HAS the field, even when its value there is `undefined`; so a field is
 * modelled as absent, present but undefined, or set to a value.
 *
 * A callback is modelled by what it does when the dialog's button is pressed: a list of effects,
 * each either hiding the dialog (`Hide`) or calling one of the caller's own callbacks (named by a number).
 */
module Notifications {
  import opened Wrappers

  /** `NotificationType`. */
  datatype Kind = Success | Error | Info | Warning

  /** One field of an object: missing, present with value `undefined`, or set. */
  datatype Field<T> = Absent | Undefined | Set(value: T)

  /** The field of `{ f: d, ...o }`: the spread object's field wins whenever it has one. */
  function Spread<T>(d: Field<T>, o: Field<T>): (r: Field<T>)
    ensures o.Absent? ==> r == d
    ensures !o.Absent? ==> r == o
  {
    if o.Absent? then d else o
  }

  datatype Effect = Hide | Call(callback: nat)

  /** `ToastOptions`: `type` is required, `duration` optional. */
  datatype Toast = Toast(message: string, kind: Kind, duration: Field<int>)

  /** What `showToast` accepts: a bare message or a full options object. */
  datatype ToastArg = Text(message: string) | Options(options: Toast)

  const DEFAULT_DURATION: int := 3000

  /** `DialogOptions` (also its `Partial`, in which every field may be missing). */
  datatype Dialog = Dialog(
    title: Field<string>, message: Field<string>, kind: Field<Kind>,
    confirmText: Field<string>, cancelText: Field<string>,
    onConfirm: Field<seq<Effect>>, onCancel: Field<seq<Effect>>, isAlert: Field<bool>)

  /** A `Partial<DialogOptions>` with no field at all. */
  const NO_OPTIONS: Dialog := Dialog(Absent, Absent, Absent, Absent, Absent, Absent, Absent, Absent)

  const ALERT_CONFIRM: string := "OK"
  const CONFIRM_TEXT: string := "Подтвердить"
  const CANCEL_TEXT: string := "Отмена"

  /** The toast `showToast` stores. */
  function ToastOf(arg: ToastArg): (t: Toast)
    ensures arg.Text? ==> t == Toast(arg.message, Info, Set(DEFAULT_DURATION))
    ensures arg.Options? ==> t.message == arg.options.message && t.kind == arg.options.kind
    ensures arg.Options? && arg.options.duration.Absent? ==> t.duration == Set(DEFAULT_DURATION)
    ensures arg.Options? && !arg.options.duration.Absent? ==> t.duration == arg.options.duration
  {
    match arg
    case Text(m) => Toast(m, Info, Set(DEFAULT_DURATION))
    case Options(o) => Toast(o.message, o.kind, Spread(Set(DEFAULT_DURATION), o.duration))
  }

  /** The `onConfirm` wrapper of `showAlert`: hide the dialog, then the caller's callback if any. */
  function AlertConfirm(onConfirm: Option<nat>): seq<Effect>
  {
    [Hide] + (if onConfirm.Some? then [Call(onConfirm.value)] else [])
  }

  /** The dialog `showAlert` stores; the type defaults to info. */
  function AlertDialog(title: string, message: string, kind: Option<Kind>, onConfirm: Option<nat>): (d: Dialog)
    ensures d.title == Set(title) && d.message == Set(message)
    ensures d.kind == Set(if kind.Some? then kind.value else Info)
    ensures d.isAlert == Set(true) && d.confirmText == Set(ALERT_CONFIRM)
    ensures d.cancelText.Absent? && d.onCancel.Absent?
    ensures d.onConfirm == Set(AlertConfirm(onConfirm))
  {
    Dialog(Set(title), Set(message), Set(if kind.Some? then kind.value else Info),
           Set(ALERT_CONFIRM), Absent, Set(AlertConfirm(onConfirm)), Absent, Set(true))
  }

  /** The `onCancel` wrapper of `showConfirm`: hide the dialog, then the caller's `onCancel` if it is set. */
  function ConfirmCancel(options: Option<Dialog>): seq<Effect>
  {
    [Hide] + (if options.Some? && options.value.onCancel.Set? then options.value.onCancel.value else [])
  }

  /**
   * The dialog `showConfirm` stores: the defaults, then every field of the caller's options, then
   * the two wrappers, which no option can replace.
   */
  function ConfirmDialog(title: string, message: string, onConfirm: nat, options: Option<Dialog>): Dialog
  {
    var o := if options.Some? then options.value else NO_OPTIONS;
    Dialog(Spread(Set(title), o.title), Spread(Set(message), o.message), Spread(Set(Warning), o.kind),
           Spread(Set(CONFIRM_TEXT), o.confirmText), Spread(Set(CANCEL_TEXT), o.cancelText),
           Set([Hide, Call(onConfirm)]), Set(ConfirmCancel(options)), o.isAlert)
  }

  /** Without options, a confirmation is a warning with the two default button texts. */
  lemma ConfirmDefaults(title: string, message: string, onConfirm: nat)
    ensures var d := ConfirmDialog(title, message, onConfirm, None);
      d.title == Set(title) && d.message == Set(message) && d.kind == Set(Warning)
      && d.confirmText == Set(CONFIRM_TEXT) && d.cancelText == Set(CANCEL_TEXT) && d.isAlert.Absent?
      && d.onConfirm == Set([Hide, Call(onConfirm)]) && d.onCancel == Set([Hide])
  {
    assert [Hide] + [] == [Hide];
  }

  /**
   * The caller's options override the title, message, type, button texts and the alert flag
   * wherever they have the field, and leave the default where they do not.
   */
  lemma ConfirmOptionsOverride(title: string, message: string, onConfirm: nat, o: Dialog)
    ensures var d := ConfirmDialog(title, message, onConfirm, Some(o));
      (d.kind == if o.kind.Absent? then Set(Warning) else o.kind)
      && (d.confirmText == if o.confirmText.Absent? then Set(CONFIRM_TEXT) else o.confirmText)
      && (d.cancelText == if o.cancelText.Absent? then Set(CANCEL_TEXT) else o.cancelText)
      && (d.title == if o.title.Absent? then Set(title) else o.title)
      && (d.message == if o.message.Absent? then Set(message) else o.message)
      && d.isAlert == o.isAlert
  {
  }

  /**
   * Whatever the options, confirming hides the dialog and then runs the caller's `onConfirm`
   * (never an `onConfirm` passed in the options), and cancelling hides it and runs the
   * options' `onCancel` only when one is set.
   */
  lemma ConfirmKeepsWrappers(title: string, message: string, onConfirm: nat, o: Dialog)
    ensures var d := ConfirmDialog(title, message, onConfirm, Some(o));
      d.onConfirm == Set([Hide, Call(onConfirm)])
      && d.onCancel == Set([Hide] + if o.onCancel.Set? then o.onCancel.value else [])
  {
  }

  /** The provider's state. */
  class Center {
    var toast: Option<Toast>
    var dialog: Option<Dialog>
    var isLoading: bool

    constructor ()
      ensures toast == None && dialog == None && !isLoading
    {
      toast := None;
      dialog := None;
      isLoading := false;
    }

    /** `showToast`. */
    method ShowToast(arg: ToastArg)
      modifies this
      ensures toast == Some(ToastOf(arg)) && dialog == old(dialog) && isLoading == old(isLoading)
    {
      match arg {
        case Text(m) => toast := Some(Toast(m, Info, Set(DEFAULT_DURATION)));
        case Options(o) => toast := Some(Toast(o.message, o.kind, Spread(Set(DEFAULT_DURATION), o.duration)));
      }
    }

    /** `showDialog`: the options as given. */
    method ShowDialog(options: Dialog)
      modifies this
      ensures dialog == Some(options) && toast == old(toast) && isLoading == old(isLoading)
    {
      dialog := Some(options);
    }

    /** `showAlert`. */
    method ShowAlert(title: string, message: string, kind: Option<Kind>, onConfirm: Option<nat>)
      modifies this
      ensures dialog == Some(AlertDialog(title, message, kind, onConfirm))
      ensures toast == old(toast) && isLoading == old(isLoading)
    {
      dialog := Some(AlertDialog(title, message, kind, onConfirm));
    }

    /** `showConfirm`. */
    method ShowConfirm(title: string, message: string, onConfirm: nat, options: Option<Dialog>)
      modifies this
      ensures dialog == Some(ConfirmDialog(title, message, onConfirm, options))
      ensures toast == old(toast) && isLoading == old(isLoading)
    {
      dialog := Some(ConfirmDialog(title, message, onConfirm, options));
    }

    /** `setLoading`. */
    method SetLoading(loading: bool)
      modifies this
      ensures isLoading == loading && toast == old(toast) && dialog == old(dialog)
    {
      isLoading := loading;
    }

    /** `hideToast`. */
    method HideToast()
      modifies this
      ensures toast == None && dialog == old(dialog) && isLoading == old(isLoading)
    {
      toast := None;
    }

    /** `hideDialog`. */
    method HideDialog()
      modifies this
      ensures dialog == None && toast == old(toast) && isLoading == old(isLoading)
    {
      dialog := None;
    }

    /**
     * Pressing a dialog button runs its callback: each `Hide` clears the dialog and each
     * caller's callback is called, in order (`calls` lists them).
     */
    method Run(effects: seq<Effect>) returns (calls: seq<nat>)
      modifies this
      ensures calls == CallsOf(effects)
      ensures dialog == if Hide in effects then None else old(dialog)
      ensures toast == old(toast) && isLoading == old(isLoading)
    {
      calls := [];
      var i := 0;
      while i < |effects|
        invariant 0 <= i <= |effects|
        invariant calls == CallsOf(effects[..i])
        invariant dialog == if Hide in effects[..i] then None else old(dialog)
        invariant toast == old(toast) && isLoading == old(isLoading)
      {
        assert effects[..i + 1] == effects[..i] + [effects[i]];
        match effects[i] {
          case Hide => HideDialog();
          case Call(f) => calls := calls + [f];
        }
        i := i + 1;
      }
      assert effects[..i] == effects;
    }
  }

  /** The caller's callbacks an effect list calls, in order. */
  function CallsOf(effects: seq<Effect>): seq<nat>
  {
    if effects == [] then []
    else
      var n := |effects| - 1;
      CallsOf(effects[..n]) + (if effects[n].Call? then [effects[n].callback] else [])
  }

  /** Pressing OK on an alert closes it and then calls the caller's callback exactly once, if given. */
  method AlertThenOk(title: string, message: string, kind: Option<Kind>, onConfirm: Option<nat>)
    returns (open: bool, calls: seq<nat>)
    ensures open && calls == (if onConfirm.Some? then [onConfirm.value] else [])
  {
    var center := new Center();
    center.ShowAlert(title, message, kind, onConfirm);
    open := center.dialog.Some?;
    var effects := center.dialog.value.onConfirm.value;
    assert CallsOf([Hide]) == [];
    calls := center.Run(effects);
    assert center.dialog == None;
  }

  /**
   * Confirming a confirmation dialog closes it and calls the caller's `onConfirm`; cancelling closes
   * it and calls only the options' `onCancel`, and nothing when there is none.
   */
  method ConfirmThenAnswer(title: string, message: string, onConfirm: nat, options: Option<Dialog>, confirm: bool)
    returns (closed: bool, calls: seq<nat>)
    ensures closed
    ensures confirm ==> calls == [onConfirm]
    ensures !confirm ==> calls == CallsOf(if options.Some? && options.value.onCancel.Set? then options.value.onCancel.value else [])
  {
    var center := new Center();
    center.ShowConfirm(title, message, onConfirm, options);
    var d := center.dialog.value;
    if confirm {
      assert CallsOf([Hide]) == [];
      calls := center.Run(d.onConfirm.value);
    } else {
      var extra := if options.Some? && options.value.onCancel.Set? then options.value.onCancel.value else [];
      CallsOfAppend([Hide], extra);
      assert CallsOf([Hide]) == [];
      calls := center.Run([Hide] + extra);
    }
    closed := center.dialog == None;
  }

  lemma {:induction false} CallsOfAppend(a: seq<Effect>, b: seq<Effect>)
    ensures CallsOf(a + b) == CallsOf(a) + CallsOf(b)
    decreases |b|
  {
    if b != [] {
      var n := |b| - 1;
      CallsOfAppend(a, b[..n]);
      assert (a + b)[..|a + b| - 1] == a + b[..n];
    } else {
      assert a + b == a;
    }
  }

  /** `useNotification`: the context, or the error it throws outside a provider. */
  function UseNotification<C>(context: Option<C>): (r: Result<C, string>)
    ensures r.Ok? <==> context.Some?
    ensures r.Ok? ==> r.value == context.value
    ensures r.Err? ==> r.error == "useNotification must be used within a NotificationProvider"
  {
    match context
    case Some(c) => Ok(c)
    case None => Err("useNotification must be used within a NotificationProvider")
  }
}
