/**
 * The FluentValidation validators of the gRPC requests. A validator runs
 * every rule of every property (the default cascade), so its result is the
 * list of the messages of the broken rules, in the order the rules are
 * declared; a request is valid when that list is empty. A nested message is
 * first checked for null; a null one yields only the null message, since the
 * nested validator is not run on null.
 *
 * The requests are the transport messages: strings are never null (a missing
 * string is empty), a missing timestamp or nested message is `None`, and an
 * enum field holds its number as sent.
 */
module Validators {
  import opened Wrappers
  import D = Domain
  import IQ = InstanceQueries

  /** The message of each rule; `Text` is what the validator reports. */
  datatype Message =
    | TelegramIdNotPositive
    | OperationIdNotPositive
    | ReminderIdNotPositive
    | ThemeRequired
    | ThemeTooLong
    | DescriptionRequired
    | DescriptionTooLong
    | StartDateRequired
    | TemplateRequired
    | TemplateTooLong
    | OffsetNotPositive
    | ReminderNull
    | OperationNull
    | RangeNotInEnum

  function Text(m: Message): string {
    match m
    case TelegramIdNotPositive => "Telegram ID должен быть положительным числом"
    case OperationIdNotPositive => "ID операции должен быть положительным числом"
    case ReminderIdNotPositive => "ID напоминания должен быть положительным числом"
    case ThemeRequired => "Тема операции обязательна"
    case ThemeTooLong => "Максимальная длина темы: 200"
    case DescriptionRequired => "Описание операции обязательно"
    case DescriptionTooLong => "Максимальная длина описания: 2000"
    case StartDateRequired => "Дата начала обязательна"
    case TemplateRequired => "Шаблон сообщения обязателен"
    case TemplateTooLong => "Максимальная длина шаблона: 1000"
    case OffsetNotPositive => "Смещение должно быть положительным числом"
    case ReminderNull => "Напоминание не может быть null"
    case OperationNull => "Операция не может быть null"
    case RangeNotInEnum => "Неверный диапазон времени"
  }

  /** The declared length of the text columns: `HasMaxLength` of the entity configurations, in characters. */
  const ThemeColumn := 200
  const DescriptionColumn := 2000
  const TemplateColumn := 1000

  /** `char.IsWhiteSpace`: the Unicode space separators, line and paragraph separators, and U+0009 to U+000D, U+0085, U+00A0. */
  predicate IsWhiteSpace(c: char) {
    ('\U{9}' <= c <= '\U{D}') || c == '\U{20}' || c == '\U{85}' || c == '\U{A0}' || c == '\U{1680}'
    || ('\U{2000}' <= c <= '\U{200A}') || c == '\U{2028}' || c == '\U{2029}' || c == '\U{202F}' || c == '\U{205F}'
    || c == '\U{3000}'
  }

  /** `NotEmpty` on a string: not null, not empty and not only white space. */
  predicate NotBlank(s: string) {
    exists i :: 0 <= i < |s| && !IsWhiteSpace(s[i])
  }

  /** The number of UTF-16 code units of a character: two for one outside the Basic Multilingual Plane. */
  function Units(c: char): (n: nat)
    ensures 1 <= n <= 2
  {
    if c as int >= 0x1_0000 then 2 else 1
  }

  /** `string.Length`, which `MaximumLength` compares: the UTF-16 code units. */
  function Utf16Length(s: string): (n: nat)
    ensures |s| <= n <= 2 * |s|
    ensures n == |s| <==> forall i :: 0 <= i < |s| ==> s[i] as int < 0x1_0000
  {
    if s == [] then 0
    else
      var rest := Utf16Length(s[1..]);
      assert forall i :: 1 <= i < |s| ==> s[i] == s[1..][i - 1];
      Units(s[0]) + rest
  }

  /** One rule: no message when it holds, its message when it is broken. */
  function Rule(holds: bool, message: Message): (r: seq<Message>)
    ensures r == [] <==> holds
    ensures !holds ==> r == [message]
  {
    if holds then [] else [message]
  }

  datatype CreateOperationDto = CreateOperationDto(theme: string, description: string, startDate: Option<nat>)
  datatype UpdateOperationDto = UpdateOperationDto(id: int, theme: string, description: string, startDate: Option<nat>)
  datatype CreateReminderDto = CreateReminderDto(messageTemplate: string)
  datatype UpdateReminderDto = UpdateReminderDto(id: int, messageTemplate: string, offsetMinutes: int)
  datatype AddReminderRequest = AddReminderRequest(telegramId: int, operationId: int, reminder: Option<CreateReminderDto>)
  datatype UpdateReminderRequest = UpdateReminderRequest(telegramId: int, operationId: int, reminder: Option<UpdateReminderDto>)
  datatype DeleteReminderRequest = DeleteReminderRequest(telegramId: int, operationId: int, reminderId: int)
  datatype CreateOperationRequest = CreateOperationRequest(telegramId: int, operation: Option<CreateOperationDto>)
  datatype UpdateOperationRequest = UpdateOperationRequest(telegramId: int, operation: Option<UpdateOperationDto>)
  datatype DeleteOperationRequest = DeleteOperationRequest(telegramId: int, operationId: int)
  datatype PlanedOperationsRequest = PlanedOperationsRequest(telegramId: int, range: int)

  /** The messages of the theme, description and start date rules. */
  predicate FieldMessage(m: Message) {
    m.ThemeRequired? || m.ThemeTooLong? || m.DescriptionRequired? || m.DescriptionTooLong? || m.StartDateRequired?
  }

  /** The theme, description and start date rules shared by both operation validators. */
  function OperationFieldErrors(theme: string, description: string, startDate: Option<nat>): (r: seq<Message>)
    ensures r == [] <==> NotBlank(theme) && Utf16Length(theme) <= 200
                         && NotBlank(description) && Utf16Length(description) <= 2000 && startDate.Some?
    ensures ThemeRequired in r <==> !NotBlank(theme)
    ensures ThemeTooLong in r <==> Utf16Length(theme) > 200
    ensures DescriptionRequired in r <==> !NotBlank(description)
    ensures DescriptionTooLong in r <==> Utf16Length(description) > 2000
    ensures StartDateRequired in r <==> startDate.None?
    ensures forall m :: m in r ==> FieldMessage(m)
  {
    Rule(NotBlank(theme), ThemeRequired) + Rule(Utf16Length(theme) <= 200, ThemeTooLong)
    + Rule(NotBlank(description), DescriptionRequired) + Rule(Utf16Length(description) <= 2000, DescriptionTooLong)
    + Rule(startDate.Some?, StartDateRequired)
  }

  /** `CreateOperationDtoValidator`. */
  function CreateOperationDtoErrors(dto: CreateOperationDto): (r: seq<Message>)
    ensures r == [] <==> NotBlank(dto.theme) && Utf16Length(dto.theme) <= 200
                         && NotBlank(dto.description) && Utf16Length(dto.description) <= 2000 && dto.startDate.Some?
    ensures forall m :: m in r ==> FieldMessage(m)
  {
    OperationFieldErrors(dto.theme, dto.description, dto.startDate)
  }

  /** `UpdateOperationDtoValidator`: the create rules behind a positive-id rule. */
  function UpdateOperationDtoErrors(dto: UpdateOperationDto): (r: seq<Message>)
    ensures r == [] <==> dto.id > 0 && CreateOperationDtoErrors(CreateOperationDto(dto.theme, dto.description, dto.startDate)) == []
    ensures OperationIdNotPositive in r <==> dto.id <= 0
    ensures forall m :: m in r ==> m == OperationIdNotPositive || FieldMessage(m)
  {
    Rule(dto.id > 0, OperationIdNotPositive) + OperationFieldErrors(dto.theme, dto.description, dto.startDate)
  }

  /** `CreateReminderDtoValidator`: the offset is not checked. */
  function CreateReminderDtoErrors(dto: CreateReminderDto): (r: seq<Message>)
    ensures r == [] <==> NotBlank(dto.messageTemplate) && Utf16Length(dto.messageTemplate) <= 1000
    ensures TemplateRequired in r <==> !NotBlank(dto.messageTemplate)
    ensures TemplateTooLong in r <==> Utf16Length(dto.messageTemplate) > 1000
  {
    Rule(NotBlank(dto.messageTemplate), TemplateRequired) + Rule(Utf16Length(dto.messageTemplate) <= 1000, TemplateTooLong)
  }

  /** `UpdateReminderDtoValidator`, as written: the template has no maximum length. */
  function UpdateReminderDtoErrors(dto: UpdateReminderDto): (r: seq<Message>)
    ensures r == [] <==> dto.id > 0 && NotBlank(dto.messageTemplate) && dto.offsetMinutes > 0
    ensures ReminderIdNotPositive in r <==> dto.id <= 0
    ensures TemplateRequired in r <==> !NotBlank(dto.messageTemplate)
    ensures OffsetNotPositive in r <==> dto.offsetMinutes <= 0
  {
    Rule(dto.id > 0, ReminderIdNotPositive) + Rule(NotBlank(dto.messageTemplate), TemplateRequired)
    + Rule(dto.offsetMinutes > 0, OffsetNotPositive)
  }

  /** `UpdateReminderDtoValidator` with the template bounded as on creation. */
  function BoundedUpdateReminderDtoErrors(dto: UpdateReminderDto): (r: seq<Message>)
    ensures r == [] <==> UpdateReminderDtoErrors(dto) == [] && Utf16Length(dto.messageTemplate) <= 1000
    ensures TemplateTooLong in r <==> Utf16Length(dto.messageTemplate) > 1000
  {
    Rule(dto.id > 0, ReminderIdNotPositive)
    + Rule(NotBlank(dto.messageTemplate), TemplateRequired) + Rule(Utf16Length(dto.messageTemplate) <= 1000, TemplateTooLong)
    + Rule(dto.offsetMinutes > 0, OffsetNotPositive)
  }

  /** `AddReminderRequestValidator`. */
  function AddReminderRequestErrors(req: AddReminderRequest): (r: seq<Message>)
    ensures r == [] <==> req.telegramId > 0 && req.operationId > 0
                         && req.reminder.Some? && CreateReminderDtoErrors(req.reminder.value) == []
    ensures ReminderNull in r <==> req.reminder.None?
  {
    Rule(req.telegramId > 0, TelegramIdNotPositive) + Rule(req.operationId > 0, OperationIdNotPositive)
    + if req.reminder.None? then [ReminderNull] else CreateReminderDtoErrors(req.reminder.value)
  }

  /** `UpdateReminderRequestValidator`, nesting `UpdateReminderDtoValidator` as written. */
  function UpdateReminderRequestErrors(req: UpdateReminderRequest): (r: seq<Message>)
    ensures r == [] <==> req.telegramId > 0 && req.operationId > 0
                         && req.reminder.Some? && UpdateReminderDtoErrors(req.reminder.value) == []
    ensures ReminderNull in r <==> req.reminder.None?
  {
    Rule(req.telegramId > 0, TelegramIdNotPositive) + Rule(req.operationId > 0, OperationIdNotPositive)
    + if req.reminder.None? then [ReminderNull] else UpdateReminderDtoErrors(req.reminder.value)
  }

  /**
   * The update request rule with the nested template bounded as on creation
   * (`BoundedUpdateReminderDtoErrors`): every request it admits carries a
   * template that fits its column.
   */
  function BoundedUpdateReminderRequestErrors(req: UpdateReminderRequest): (r: seq<Message>)
    ensures r == [] <==> req.telegramId > 0 && req.operationId > 0
                         && req.reminder.Some? && BoundedUpdateReminderDtoErrors(req.reminder.value) == []
    ensures r == [] ==> |req.reminder.value.messageTemplate| <= TemplateColumn
    ensures r == [] ==> UpdateReminderRequestErrors(req) == []
  {
    Rule(req.telegramId > 0, TelegramIdNotPositive) + Rule(req.operationId > 0, OperationIdNotPositive)
    + if req.reminder.None? then [ReminderNull] else BoundedUpdateReminderDtoErrors(req.reminder.value)
  }

  /** `DeleteReminderRequestValidator`. */
  function DeleteReminderRequestErrors(req: DeleteReminderRequest): (r: seq<Message>)
    ensures r == [] <==> req.telegramId > 0 && req.operationId > 0 && req.reminderId > 0
    ensures |r| == (if req.telegramId > 0 then 0 else 1) + (if req.operationId > 0 then 0 else 1)
                   + (if req.reminderId > 0 then 0 else 1)
  {
    Rule(req.telegramId > 0, TelegramIdNotPositive) + Rule(req.operationId > 0, OperationIdNotPositive)
    + Rule(req.reminderId > 0, ReminderIdNotPositive)
  }

  /** `CreateOperationRequestValidator`. */
  function CreateOperationRequestErrors(req: CreateOperationRequest): (r: seq<Message>)
    ensures r == [] <==> req.telegramId > 0 && req.operation.Some? && CreateOperationDtoErrors(req.operation.value) == []
    ensures OperationNull in r <==> req.operation.None?
  {
    Rule(req.telegramId > 0, TelegramIdNotPositive)
    + if req.operation.None? then [OperationNull] else CreateOperationDtoErrors(req.operation.value)
  }

  /** `UpdateOperationRequestValidator`. */
  function UpdateOperationRequestErrors(req: UpdateOperationRequest): (r: seq<Message>)
    ensures r == [] <==> req.telegramId > 0 && req.operation.Some? && UpdateOperationDtoErrors(req.operation.value) == []
    ensures OperationNull in r <==> req.operation.None?
  {
    Rule(req.telegramId > 0, TelegramIdNotPositive)
    + if req.operation.None? then [OperationNull] else UpdateOperationDtoErrors(req.operation.value)
  }

  /** `DeleteOperationRequestValidator`. */
  function DeleteOperationRequestErrors(req: DeleteOperationRequest): (r: seq<Message>)
    ensures r == [] <==> req.telegramId > 0 && req.operationId > 0
    ensures TelegramIdNotPositive in r <==> req.telegramId <= 0
    ensures OperationIdNotPositive in r <==> req.operationId <= 0
  {
    Rule(req.telegramId > 0, TelegramIdNotPositive) + Rule(req.operationId > 0, OperationIdNotPositive)
  }

  /** `PlanedOperationsRequestValidator`: `IsInEnum` admits every defined `TimeRange` number. */
  function PlanedOperationsRequestErrors(req: PlanedOperationsRequest): (r: seq<Message>)
    ensures r == [] <==> req.telegramId > 0 && D.FromValue(req.range).Some?
    ensures RangeNotInEnum in r <==> !D.IsDefined(req.range)
  {
    Rule(req.telegramId > 0, TelegramIdNotPositive) + Rule(D.IsDefined(req.range), RangeNotInEnum)
  }

  /**
   * A null nested message is reported by its null message alone: the nested
   * rules are not run, so none of their messages appears.
   */
  lemma NullNestedReportsOnlyNull(telegramId: int, operationId: int)
    ensures AddReminderRequestErrors(AddReminderRequest(telegramId, operationId, None))
         == Rule(telegramId > 0, TelegramIdNotPositive) + Rule(operationId > 0, OperationIdNotPositive) + [ReminderNull]
    ensures TemplateRequired !in AddReminderRequestErrors(AddReminderRequest(telegramId, operationId, None))
    ensures OperationIdNotPositive !in UpdateOperationRequestErrors(UpdateOperationRequest(telegramId, None))
  {
  }

  /** An example: every rule that fails contributes its own message, in declaration order. */
  lemma AllMessagesInOrder()
    ensures DeleteReminderRequestErrors(DeleteReminderRequest(0, 0, 0)) == [TelegramIdNotPositive, OperationIdNotPositive, ReminderIdNotPositive]
    ensures CreateOperationDtoErrors(CreateOperationDto("", "", None)) == [ThemeRequired, DescriptionRequired, StartDateRequired]
  {
    assert !NotBlank("");
  }

  /**
   * The place of a message's rule among the declarations: the request ids
   * first, then the nested message's rules in their own order, then the
   * null and enum checks, which never share a list with the rules they
   * would precede.
   */
  function Rank(m: Message): nat {
    match m
    case TelegramIdNotPositive => 0
    case OperationIdNotPositive => 1
    case ReminderIdNotPositive => 2
    case ThemeRequired => 3
    case ThemeTooLong => 4
    case DescriptionRequired => 5
    case DescriptionTooLong => 6
    case StartDateRequired => 7
    case TemplateRequired => 8
    case TemplateTooLong => 9
    case OffsetNotPositive => 10
    case ReminderNull => 11
    case OperationNull => 12
    case RangeNotInEnum => 13
  }

  /** Messages in strictly increasing declaration order: each broken rule once, earlier rules first. */
  predicate InOrder(ms: seq<Message>) {
    forall i, j :: 0 <= i < j < |ms| ==> Rank(ms[i]) < Rank(ms[j])
  }

  /** Every message of `ms` comes from a rule declared at or after `lo` and before `hi`. */
  predicate RanksIn(ms: seq<Message>, lo: nat, hi: nat) {
    forall m :: m in ms ==> lo <= Rank(m) < hi
  }

  lemma {:induction false} InOrderAppend(a: seq<Message>, b: seq<Message>, lo: nat, mid: nat, hi: nat)
    requires lo <= mid <= hi
    requires InOrder(a) && RanksIn(a, lo, mid)
    requires InOrder(b) && RanksIn(b, mid, hi)
    ensures InOrder(a + b) && RanksIn(a + b, lo, hi)
  {
    forall i, j | 0 <= i < j < |a + b|
      ensures Rank((a + b)[i]) < Rank((a + b)[j])
    {
      if j < |a| {
        assert (a + b)[i] == a[i] && (a + b)[j] == a[j];
      } else if i < |a| {
        assert (a + b)[i] == a[i] && a[i] in a;
        assert (a + b)[j] == b[j - |a|] && b[j - |a|] in b;
      } else {
        assert (a + b)[i] == b[i - |a|] && (a + b)[j] == b[j - |a|];
      }
    }
    forall m | m in a + b
      ensures lo <= Rank(m) < hi
    {
      if m !in a {
        assert m in b;
      }
    }
  }

  lemma OperationFieldsInOrder(theme: string, description: string, startDate: Option<nat>)
    ensures InOrder(OperationFieldErrors(theme, description, startDate))
    ensures RanksIn(OperationFieldErrors(theme, description, startDate), 3, 8)
  {
    var r1 := Rule(NotBlank(theme), ThemeRequired);
    var r2 := Rule(Utf16Length(theme) <= 200, ThemeTooLong);
    var r3 := Rule(NotBlank(description), DescriptionRequired);
    var r4 := Rule(Utf16Length(description) <= 2000, DescriptionTooLong);
    var r5 := Rule(startDate.Some?, StartDateRequired);
    RuleInOrder(NotBlank(theme), ThemeRequired, 3, 4);
    RuleInOrder(Utf16Length(theme) <= 200, ThemeTooLong, 4, 5);
    RuleInOrder(NotBlank(description), DescriptionRequired, 5, 6);
    RuleInOrder(Utf16Length(description) <= 2000, DescriptionTooLong, 6, 7);
    RuleInOrder(startDate.Some?, StartDateRequired, 7, 8);
    InOrderAppend(r1, r2, 3, 4, 5);
    InOrderAppend(r1 + r2, r3, 3, 5, 6);
    InOrderAppend(r1 + r2 + r3, r4, 3, 6, 7);
    InOrderAppend(r1 + r2 + r3 + r4, r5, 3, 7, 8);
  }

  lemma RuleInOrder(holds: bool, message: Message, lo: nat, hi: nat)
    requires lo <= Rank(message) < hi
    ensures InOrder(Rule(holds, message)) && RanksIn(Rule(holds, message), lo, hi)
  {
  }

  lemma CreateReminderDtoInOrder(dto: CreateReminderDto)
    ensures InOrder(CreateReminderDtoErrors(dto)) && RanksIn(CreateReminderDtoErrors(dto), 8, 10)
  {
    var m := Rule(NotBlank(dto.messageTemplate), TemplateRequired);
    var l := Rule(Utf16Length(dto.messageTemplate) <= 1000, TemplateTooLong);
    RuleInOrder(NotBlank(dto.messageTemplate), TemplateRequired, 8, 9);
    RuleInOrder(Utf16Length(dto.messageTemplate) <= 1000, TemplateTooLong, 9, 10);
    InOrderAppend(m, l, 8, 9, 10);
  }

  lemma UpdateReminderDtoInOrder(dto: UpdateReminderDto)
    ensures InOrder(UpdateReminderDtoErrors(dto)) && RanksIn(UpdateReminderDtoErrors(dto), 2, 11)
  {
    var i := Rule(dto.id > 0, ReminderIdNotPositive);
    var m := Rule(NotBlank(dto.messageTemplate), TemplateRequired);
    var f := Rule(dto.offsetMinutes > 0, OffsetNotPositive);
    RuleInOrder(dto.id > 0, ReminderIdNotPositive, 2, 3);
    RuleInOrder(NotBlank(dto.messageTemplate), TemplateRequired, 8, 9);
    RuleInOrder(dto.offsetMinutes > 0, OffsetNotPositive, 10, 11);
    InOrderAppend(i, m, 2, 8, 9);
    InOrderAppend(i + m, f, 2, 10, 11);
  }

  lemma UpdateOperationDtoInOrder(dto: UpdateOperationDto)
    ensures InOrder(UpdateOperationDtoErrors(dto)) && RanksIn(UpdateOperationDtoErrors(dto), 1, 8)
  {
    OperationFieldsInOrder(dto.theme, dto.description, dto.startDate);
    RuleInOrder(dto.id > 0, OperationIdNotPositive, 1, 2);
    InOrderAppend(Rule(dto.id > 0, OperationIdNotPositive), OperationFieldErrors(dto.theme, dto.description, dto.startDate), 1, 3, 8);
  }

  /** The telegram and operation id rules that open the reminder and deletion requests. */
  lemma IdsInOrder(telegramId: int, operationId: int)
    ensures var ids := Rule(telegramId > 0, TelegramIdNotPositive) + Rule(operationId > 0, OperationIdNotPositive);
      InOrder(ids) && RanksIn(ids, 0, 2)
  {
    RuleInOrder(telegramId > 0, TelegramIdNotPositive, 0, 1);
    RuleInOrder(operationId > 0, OperationIdNotPositive, 1, 2);
    InOrderAppend(Rule(telegramId > 0, TelegramIdNotPositive), Rule(operationId > 0, OperationIdNotPositive), 0, 1, 2);
  }

  lemma AddReminderInOrder(req: AddReminderRequest)
    ensures InOrder(AddReminderRequestErrors(req))
  {
    IdsInOrder(req.telegramId, req.operationId);
    var ids := Rule(req.telegramId > 0, TelegramIdNotPositive) + Rule(req.operationId > 0, OperationIdNotPositive);
    if req.reminder.Some? {
      CreateReminderDtoInOrder(req.reminder.value);
      InOrderAppend(ids, CreateReminderDtoErrors(req.reminder.value), 0, 2, 14);
    } else {
      RuleInOrder(false, ReminderNull, 2, 14);
      InOrderAppend(ids, [ReminderNull], 0, 2, 14);
    }
  }

  lemma UpdateReminderInOrder(req: UpdateReminderRequest)
    ensures InOrder(UpdateReminderRequestErrors(req))
  {
    IdsInOrder(req.telegramId, req.operationId);
    var ids := Rule(req.telegramId > 0, TelegramIdNotPositive) + Rule(req.operationId > 0, OperationIdNotPositive);
    if req.reminder.Some? {
      UpdateReminderDtoInOrder(req.reminder.value);
      InOrderAppend(ids, UpdateReminderDtoErrors(req.reminder.value), 0, 2, 14);
    } else {
      RuleInOrder(false, ReminderNull, 2, 14);
      InOrderAppend(ids, [ReminderNull], 0, 2, 14);
    }
  }

  lemma CreateOperationInOrder(req: CreateOperationRequest)
    ensures InOrder(CreateOperationRequestErrors(req))
  {
    var t := Rule(req.telegramId > 0, TelegramIdNotPositive);
    RuleInOrder(req.telegramId > 0, TelegramIdNotPositive, 0, 1);
    if req.operation.Some? {
      var dto := req.operation.value;
      OperationFieldsInOrder(dto.theme, dto.description, dto.startDate);
      InOrderAppend(t, CreateOperationDtoErrors(dto), 0, 1, 14);
    } else {
      RuleInOrder(false, OperationNull, 1, 14);
      InOrderAppend(t, [OperationNull], 0, 1, 14);
    }
  }

  lemma UpdateOperationInOrder(req: UpdateOperationRequest)
    ensures InOrder(UpdateOperationRequestErrors(req))
  {
    var t := Rule(req.telegramId > 0, TelegramIdNotPositive);
    RuleInOrder(req.telegramId > 0, TelegramIdNotPositive, 0, 1);
    if req.operation.Some? {
      UpdateOperationDtoInOrder(req.operation.value);
      InOrderAppend(t, UpdateOperationDtoErrors(req.operation.value), 0, 1, 14);
    } else {
      RuleInOrder(false, OperationNull, 1, 14);
      InOrderAppend(t, [OperationNull], 0, 1, 14);
    }
  }

  lemma DeleteReminderInOrder(req: DeleteReminderRequest)
    ensures InOrder(DeleteReminderRequestErrors(req))
  {
    IdsInOrder(req.telegramId, req.operationId);
    RuleInOrder(req.reminderId > 0, ReminderIdNotPositive, 2, 3);
    InOrderAppend(Rule(req.telegramId > 0, TelegramIdNotPositive) + Rule(req.operationId > 0, OperationIdNotPositive),
                  Rule(req.reminderId > 0, ReminderIdNotPositive), 0, 2, 3);
  }

  lemma PlannedInOrder(req: PlanedOperationsRequest)
    ensures InOrder(PlanedOperationsRequestErrors(req))
  {
    RuleInOrder(req.telegramId > 0, TelegramIdNotPositive, 0, 1);
    RuleInOrder(D.IsDefined(req.range), RangeNotInEnum, 13, 14);
    InOrderAppend(Rule(req.telegramId > 0, TelegramIdNotPositive), Rule(D.IsDefined(req.range), RangeNotInEnum), 0, 13, 14);
  }

  /**
   * For every request, each validator reports its broken rules in the order
   * they are declared, the nested validator's after the request's own, and
   * no message twice.
   */
  lemma {:induction false} MessagesInDeclarationOrder(
    add: AddReminderRequest, update: UpdateReminderRequest, delete: DeleteReminderRequest,
    create: CreateOperationRequest, change: UpdateOperationRequest, remove: DeleteOperationRequest,
    planned: PlanedOperationsRequest)
    ensures InOrder(AddReminderRequestErrors(add))
    ensures InOrder(UpdateReminderRequestErrors(update))
    ensures InOrder(DeleteReminderRequestErrors(delete))
    ensures InOrder(CreateOperationRequestErrors(create))
    ensures InOrder(UpdateOperationRequestErrors(change))
    ensures InOrder(DeleteOperationRequestErrors(remove))
    ensures InOrder(PlanedOperationsRequestErrors(planned))
  {
    AddReminderInOrder(add);
    UpdateReminderInOrder(update);
    DeleteReminderInOrder(delete);
    CreateOperationInOrder(create);
    UpdateOperationInOrder(change);
    IdsInOrder(remove.telegramId, remove.operationId);
    PlannedInOrder(planned);
  }

  /** A white-space-only string is as empty as the empty string for `NotEmpty`. */
  lemma BlankIsEmpty(s: string)
    requires forall i :: 0 <= i < |s| ==> IsWhiteSpace(s[i])
    ensures CreateReminderDtoErrors(CreateReminderDto(s)) != []
    ensures UpdateOperationDtoErrors(UpdateOperationDto(1, s, "d", Some(0))) != []
  {
  }

  /** A string of `n` copies of one character has `n` times that character's code units. */
  lemma {:induction false} Utf16LengthOfCopies(c: char, n: nat)
    ensures Utf16Length(seq(n, _ => c)) == n * Units(c)
  {
    if n > 0 {
      var s := seq(n, _ => c);
      assert s[1..] == seq(n - 1, _ => c);
      Utf16LengthOfCopies(c, n - 1);
    }
  }

  /**
   * An example: `MaximumLength` counts code units, not characters: a template of 600
   * characters outside the Basic Multilingual Plane has 1200 units and is
   * refused although it has fewer than 1000 characters.
   */
  lemma LengthCountsCodeUnits()
    ensures var s := seq(600, _ => '\U{1F600}');
      |s| == 600 && CreateReminderDtoErrors(CreateReminderDto(s)) == [TemplateTooLong]
  {
    var s := seq(600, _ => '\U{1F600}');
    Utf16LengthOfCopies('\U{1F600}', 600);
    assert s[0] == '\U{1F600}' && !IsWhiteSpace(s[0]);
  }

  /** Every text the operation and create-reminder validators admit fits its column. */
  lemma AdmittedTextFitsColumns(op: CreateOperationDto, reminder: CreateReminderDto)
    ensures CreateOperationDtoErrors(op) == [] ==> |op.theme| <= ThemeColumn && |op.description| <= DescriptionColumn
    ensures CreateReminderDtoErrors(reminder) == [] ==> |reminder.messageTemplate| <= TemplateColumn
  {
  }

  /**
   * The update-reminder validator, as written, admits a template the column
   * cannot hold: 1001 letters.
   */
  lemma UpdateAdmitsOverlongTemplate()
    ensures var dto := UpdateReminderDto(1, seq(1001, _ => 'a'), 15);
      UpdateReminderDtoErrors(dto) == [] && |dto.messageTemplate| > TemplateColumn
      && UpdateReminderRequestErrors(UpdateReminderRequest(1, 1, Some(dto))) == []
      && BoundedUpdateReminderRequestErrors(UpdateReminderRequest(1, 1, Some(dto))) == [TemplateTooLong]
  {
    var s := seq(1001, _ => 'a');
    assert s[0] == 'a' && !IsWhiteSpace(s[0]);
  }

  /**
   * With the bound of creation, every template the update validator admits
   * fits the column, and it admits nothing the as-written validator refuses.
   */
  lemma BoundedUpdateFitsColumn(dto: UpdateReminderDto)
    ensures BoundedUpdateReminderDtoErrors(dto) == [] ==> |dto.messageTemplate| <= TemplateColumn
    ensures BoundedUpdateReminderDtoErrors(dto) == [] ==> UpdateReminderDtoErrors(dto) == []
    ensures NotBlank(dto.messageTemplate) && Utf16Length(dto.messageTemplate) <= 1000 ==>
      (BoundedUpdateReminderDtoErrors(dto) == [] <==> UpdateReminderDtoErrors(dto) == [])
  {
  }

  /**
   * The planned-operations validator admits the ranges None, Min15 and Hour,
   * for which the query has no window and throws.
   */
  lemma AdmittedRangeMayHaveNoWindow(telegramId: int, range: int, now: nat)
    requires telegramId > 0 && 0 <= range <= 2
    ensures PlanedOperationsRequestErrors(PlanedOperationsRequest(telegramId, range)) == []
    ensures IQ.PlanWindow(D.FromValue(range).value, now).Fail?
  {
  }
}
